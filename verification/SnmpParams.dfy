/** The receiver of `Validate` and `BuildCLIArgs` (common/metrics.go), with its fields rewritten in place. */
module SnmpParams {
  import opened Text
  import opened Snmp
  import opened SnmpArgs

  class SNMPParams {
    var version: string
    var target: string
    var community: string
    var oid: string
    var timeout: int
    var secLevel: string
    var secName: string
    var authProtocol: string
    var authPassphrase: string
    var privProtocol: string
    var privPassphrase: string
    var contextName: string
    var engineID: string

    function Fields(): Params
      reads this
    {
      Params(version, target, community, oid, timeout, secLevel, secName, authProtocol, authPassphrase,
             privProtocol, privPassphrase, contextName, engineID)
    }

    constructor (p: Params)
      ensures Fields() == p
    {
      version, target, community, oid, timeout := p.version, p.target, p.community, p.oid, p.timeout;
      secLevel, secName := p.secLevel, p.secName;
      authProtocol, authPassphrase := p.authProtocol, p.authPassphrase;
      privProtocol, privPassphrase := p.privProtocol, p.privPassphrase;
      contextName, engineID := p.contextName, p.engineID;
    }

    // `Validate` as a sequence of its checks: each rewrites its field and gives an error, if any.

    method ValidateTarget(isIP: string -> bool) returns (error: Option<Error>)
      modifies this
      ensures Outcome(Fields(), error) == CheckTarget(old(Fields()), isIP)
    {
      target := Trim(target);
      if target == "" {
        return Some(EmptyTarget);
      }
      var host := HostOf(target);
      if !isIP(host) && !HostName(host) {
        return Some(UnsafeTarget);
      }
      return None;
    }

    method PlainVersion(v: string) returns (version: string)
      ensures version == VersionOf(v)
    {
      version := v;
      if version == "" || version == "v2c" {
        version := "2c";
      } else if version == "v1" {
        version := "1";
      } else if version == "v3" {
        version := "3";
      }
    }

    method ValidateVersion() returns (error: Option<Error>)
      modifies this
      ensures Outcome(Fields(), error) == CheckVersion(old(Fields()))
    {
      hide VersionOf, IsVersion;
      version := Trim(ToLower(version));
      version := PlainVersion(version);
      if !IsVersion(version) {
        return Some(BadVersion);
      }
      return None;
    }

    method ValidateCommunity() returns (error: Option<Error>)
      modifies this
      ensures Outcome(Fields(), error) == CheckCommunity(old(Fields()))
    {
      community := Trim(community);
      if community == "" {
        community := "public";
        PublicIsWord();
      } else if !Word(community, "_-") {
        return Some(BadCommunity);
      }
      return None;
    }

    method ValidateSecName() returns (error: Option<Error>)
      modifies this
      ensures Outcome(Fields(), error) == CheckSecName(old(Fields()))
    {
      secName := Trim(secName);
      if secName == "" {
        return Some(NoSecName);
      }
      if !Word(secName, "_-.@") {
        return Some(BadSecName);
      }
      return None;
    }

    method ValidateSecLevel() returns (error: Option<Error>)
      modifies this
      ensures Outcome(Fields(), error) == CheckSecLevel(old(Fields()))
    {
      secLevel := Trim(secLevel);
      if secLevel == "" {
        if privPassphrase != "" {
          secLevel := "authPriv";
        } else if authPassphrase != "" {
          secLevel := "authNoPriv";
        } else {
          secLevel := "noAuthNoPriv";
        }
      }
      match ToLower(secLevel) {
        case "noauthnopriv" => secLevel := "noAuthNoPriv";
        case "authnopriv" => secLevel := "authNoPriv";
        case "authpriv" => secLevel := "authPriv";
        case _ => return Some(BadSecLevel);
      }
      return None;
    }

    method PlainAuthProtocol(v: string) returns (name: string)
      ensures name == AuthProtocolOf(v)
    {
      name := v;
      if name == "" {
        name := "SHA";
      }
      if name == "SHA1" {
        name := "SHA";
      } else if name == "SHA256" {
        name := "SHA-256";
      } else if name == "SHA384" {
        name := "SHA-384";
      } else if name == "SHA512" {
        name := "SHA-512";
      }
    }

    method PlainPrivProtocol(v: string) returns (name: string)
      ensures name == PrivProtocolOf(v)
    {
      name := v;
      if name == "" {
        name := "AES";
      }
      if name == "AES128" {
        name := "AES-128";
      } else if name == "AES192" {
        name := "AES-192";
      } else if name == "AES256" {
        name := "AES-256";
      }
    }

    method ValidateAuth() returns (error: Option<Error>)
      modifies this
      ensures Outcome(Fields(), error) == CheckAuth(old(Fields()))
    {
      hide AuthProtocolOf, IsAuthProtocol, SafePassphrase, Trim, ToUpper;
      if secLevel == "authNoPriv" || secLevel == "authPriv" {
        authProtocol := Trim(ToUpper(authProtocol));
        authProtocol := PlainAuthProtocol(authProtocol);
        if !IsAuthProtocol(authProtocol) {
          return Some(BadAuthProtocol);
        }
        if authPassphrase == "" {
          return Some(NoAuthPassphrase);
        }
        if !SafePassphrase(authPassphrase) {
          return Some(BadAuthPassphrase);
        }
      }
      return None;
    }

    method ValidatePriv() returns (error: Option<Error>)
      modifies this
      ensures Outcome(Fields(), error) == CheckPriv(old(Fields()))
    {
      hide PrivProtocolOf, IsPrivProtocol, SafePassphrase, Trim, ToUpper;
      if secLevel == "authPriv" {
        privProtocol := Trim(ToUpper(privProtocol));
        privProtocol := PlainPrivProtocol(privProtocol);
        if !IsPrivProtocol(privProtocol) {
          return Some(BadPrivProtocol);
        }
        if privPassphrase == "" {
          return Some(NoPrivPassphrase);
        }
        if !SafePassphrase(privPassphrase) {
          return Some(BadPrivPassphrase);
        }
      }
      return None;
    }

    method ValidateContext() returns (error: Option<Error>)
      modifies this
      ensures Outcome(Fields(), error) == CheckContext(old(Fields())).Then(CheckEngine)
    {
      hide Trim, Word;
      contextName := Trim(contextName);
      if contextName != "" && !Word(contextName, "_-.") {
        return Some(BadContextName);
      }
      engineID := Trim(engineID);
      if engineID != "" && !Word(engineID, "") {
        return Some(BadEngineID);
      }
      return None;
    }

    method ValidateUser() returns (error: Option<Error>)
      modifies this
      ensures Outcome(Fields(), error) == CheckUser(old(Fields()))
    {
      hide CheckSecName, CheckSecLevel, CheckAuth, CheckPriv, CheckContext, CheckEngine;
      error := ValidateSecName();
      if error.None? {
        error := ValidateSecLevel();
      }
      if error.None? {
        error := ValidateAuth();
      }
      if error.None? {
        error := ValidatePriv();
      }
      if error.None? {
        error := ValidateContext();
      }
    }

    method ValidateOID() returns (error: Option<Error>)
      modifies this
      ensures Outcome(Fields(), error) == CheckOID(old(Fields()))
    {
      hide Trim, IsOID;
      oid := Trim(oid);
      if oid == "" {
        oid := ".1.3.6";
        DefaultIsOID();
      } else if !IsOID(oid) {
        return Some(BadOID);
      }
      return None;
    }

    method ValidateTimeout() returns (error: Option<Error>)
      modifies this
      ensures Outcome(Fields(), error) == CheckTimeout(old(Fields()))
    {
      if timeout <= 0 {
        timeout := 5;
      } else if timeout > 15 {
        return Some(TimeoutTooLong);
      }
      return None;
    }

    /** The error, if any; the fields are rewritten up to the check that failed. */
    method Validate(isIP: string -> bool) returns (error: Option<Error>)
      modifies this
      ensures Outcome(Fields(), error) == Validated(old(Fields()), isIP)
    {
      hide CheckTarget, CheckVersion, CheckUser, CheckCommunity, CheckOID, CheckTimeout;
      error := ValidateTarget(isIP);
      if error.None? {
        error := ValidateVersion();
      }
      if error.None? {
        if version == "3" {
          error := ValidateUser();
        } else {
          error := ValidateCommunity();
        }
      }
      if error.None? {
        error := ValidateOID();
      }
      if error.None? {
        error := ValidateTimeout();
      }
    }

    method AddOption(args: seq<string>, flag: string, value: string) returns (longer: seq<string>)
      ensures longer == args + Opt(flag, value)
    {
      longer := args;
      if value != "" {
        longer := longer + [flag, value];
      }
    }

    /** The arguments for version 3, up to the time limit. */
    method BuildUserArgs() returns (args: seq<string>)
      ensures args == UserArgs(Fields())
    {
      hide Opt;
      args := ["-v", "3", "-u", secName];
      args := AddOption(args, "-l", secLevel);
      ghost var start := args;
      if secLevel == "authNoPriv" || secLevel == "authPriv" {
        args := AddOption(args, "-a", authProtocol);
        args := AddOption(args, "-A", authPassphrase);
      }
      assert args == start + if UsesAuth(Fields()) then Opt("-a", authProtocol) + Opt("-A", authPassphrase) else [];
      start := args;
      if secLevel == "authPriv" {
        args := AddOption(args, "-x", privProtocol);
        args := AddOption(args, "-X", privPassphrase);
      }
      assert args == start + if UsesPriv(Fields()) then Opt("-x", privProtocol) + Opt("-X", privPassphrase) else [];
      args := AddOption(args, "-n", contextName);
      args := AddOption(args, "-e", engineID);
    }

    /** The arguments of snmpwalk and snmpget. */
    method BuildCLIArgs() returns (args: seq<string>)
      ensures args == Args(Fields())
    {
      hide UserArgs;
      if version == "3" {
        args := BuildUserArgs();
      } else {
        args := ["-v", OrElse(version, "2c"), "-c", OrElse(community, "public")];
      }
      args := args + ["-t", ItoaInt(timeout), target, oid];
    }
  }
}
