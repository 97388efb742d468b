/** The command line of the net-snmp programs (common/metrics.go), and how it is read back. */
module SnmpArgs {
  import opened Text
  import opened Snmp

  // ---- printing --------------------------------------------------------------------------------

  /** An option that is left out when its value is empty. */
  function Opt(flag: string, value: string): seq<string> { if value == "" then [] else [flag, value] }

  function UserArgs(p: Params): seq<string> {
    ["-v", "3", "-u", p.secName]
    + Opt("-l", p.secLevel)
    + (if UsesAuth(p) then Opt("-a", p.authProtocol) + Opt("-A", p.authPassphrase) else [])
    + (if UsesPriv(p) then Opt("-x", p.privProtocol) + Opt("-X", p.privPassphrase) else [])
    + Opt("-n", p.contextName)
    + Opt("-e", p.engineID)
  }

  function Args(p: Params): seq<string> {
    (if p.version == "3" then UserArgs(p)
     else ["-v", OrElse(p.version, "2c"), "-c", OrElse(p.community, "public")])
    + ["-t", ItoaInt(p.timeout), p.target, p.oid]
  }

  // ---- reading ---------------------------------------------------------------------------------

  const BLANK := Params("", "", "", "", 0, "", "", "", "", "", "", "", "")

  predicate IsFlag(arg: string) { arg != "" && arg[0] == '-' }

  /** The meaning of one option; a time limit must be a number. */
  function WithOption(p: Params, flag: string, value: string): Option<Params> {
    match flag
    case "-v" => Some(p.(version := value))
    case "-c" => Some(p.(community := value))
    case "-u" => Some(p.(secName := value))
    case "-l" => Some(p.(secLevel := value))
    case "-a" => Some(p.(authProtocol := value))
    case "-A" => Some(p.(authPassphrase := value))
    case "-x" => Some(p.(privProtocol := value))
    case "-X" => Some(p.(privPassphrase := value))
    case "-n" => Some(p.(contextName := value))
    case "-e" => Some(p.(engineID := value))
    case "-t" => (match Atoi(value) case Some(n) => Some(p.(timeout := n)) case None => None)
    case _ => None
  }

  /** Every flag takes one value; what is left are two positionals, neither of them a flag. */
  function Read(args: seq<string>, p: Params): Option<Params>
    decreases |args|
  {
    if |args| < 2 then None
    else if IsFlag(args[0]) then
      match WithOption(p, args[0], args[1])
      case Some(q) => Read(args[2..], q)
      case None => None
    else if |args| == 2 && !IsFlag(args[1]) then Some(p.(target := args[0], oid := args[1]))
    else None
  }

  /** The fields that matter at this version and security level; the others blank. */
  function Relevant(p: Params): Params {
    if p.version == "3" then
      var auth := if UsesAuth(p) then p else p.(authProtocol := "", authPassphrase := "");
      var priv := if UsesPriv(p) then auth else auth.(privProtocol := "", privPassphrase := "");
      priv.(community := "")
    else BLANK.(version := p.version, community := p.community, target := p.target, oid := p.oid, timeout := p.timeout)
  }

  // ---- the round trip --------------------------------------------------------------------------

  lemma ReadOption(flag: string, value: string, rest: seq<string>, p: Params, q: Params)
    requires IsFlag(flag) && WithOption(p, flag, value) == Some(q)
    ensures Read([flag, value] + rest, p) == Read(rest, q)
  {
    hide WithOption;
    assert ([flag, value] + rest)[2..] == rest;
  }

  lemma ReadOpt(flag: string, value: string, rest: seq<string>, p: Params, q: Params)
    requires IsFlag(flag)
    requires if value == "" then p == q else WithOption(p, flag, value) == Some(q)
    ensures Read(Opt(flag, value) + rest, p) == Read(rest, q)
  {
    hide WithOption, Read;
    if value == "" {
      assert Opt(flag, value) + rest == rest;
    } else {
      ReadOption(flag, value, rest, p, q);
    }
  }

  /** The time limit and the positionals. */
  lemma ReadEnd(p: Params, timeout: nat, target: string, oid: string)
    requires timeout < 0x8000_0000_0000_0000
    requires target != "" && !IsFlag(target) && !IsFlag(oid)
    ensures Read(["-t", ItoaInt(timeout), target, oid], p) == Some(p.(timeout := timeout, target := target, oid := oid))
  {
    AtoiOfItoa(timeout);
    ReadOption("-t", ItoaInt(timeout), [target, oid], p, p.(timeout := timeout));
    assert ["-t", ItoaInt(timeout)] + [target, oid] == ["-t", ItoaInt(timeout), target, oid];
  }

  lemma ReadAuth(p: Params, rest: seq<string>, q: Params)
    requires q.authProtocol == "" && q.authPassphrase == ""
    ensures Read((if UsesAuth(p) then Opt("-a", p.authProtocol) + Opt("-A", p.authPassphrase) else []) + rest, q)
         == Read(rest, if UsesAuth(p)
                       then q.(authProtocol := p.authProtocol, authPassphrase := p.authPassphrase) else q)
  {
    hide Read, Opt, WithOption;
    WithAuth(q, p.authProtocol, p.authPassphrase);
    if UsesAuth(p) {
      var q1 := q.(authProtocol := p.authProtocol);
      assert Opt("-a", p.authProtocol) + Opt("-A", p.authPassphrase) + rest
          == Opt("-a", p.authProtocol) + (Opt("-A", p.authPassphrase) + rest);
      ReadOpt("-a", p.authProtocol, Opt("-A", p.authPassphrase) + rest, q, q1);
      ReadOpt("-A", p.authPassphrase, rest, q1, q1.(authPassphrase := p.authPassphrase));
    } else {
      assert [] + rest == rest;
    }
  }

  lemma WithAuth(q: Params, a: string, b: string)
    ensures WithOption(q, "-a", a) == Some(q.(authProtocol := a))
    ensures WithOption(q.(authProtocol := a), "-A", b) == Some(q.(authProtocol := a, authPassphrase := b))
  {}

  lemma WithPriv(q: Params, a: string, b: string)
    ensures WithOption(q, "-x", a) == Some(q.(privProtocol := a))
    ensures WithOption(q.(privProtocol := a), "-X", b) == Some(q.(privProtocol := a, privPassphrase := b))
  {}

  lemma ReadPriv(p: Params, rest: seq<string>, q: Params)
    requires q.privProtocol == "" && q.privPassphrase == ""
    ensures Read((if UsesPriv(p) then Opt("-x", p.privProtocol) + Opt("-X", p.privPassphrase) else []) + rest, q)
         == Read(rest, if UsesPriv(p)
                       then q.(privProtocol := p.privProtocol, privPassphrase := p.privPassphrase) else q)
  {
    hide Read, Opt, WithOption;
    WithPriv(q, p.privProtocol, p.privPassphrase);
    if UsesPriv(p) {
      var q1 := q.(privProtocol := p.privProtocol);
      assert Opt("-x", p.privProtocol) + Opt("-X", p.privPassphrase) + rest
          == Opt("-x", p.privProtocol) + (Opt("-X", p.privPassphrase) + rest);
      ReadOpt("-x", p.privProtocol, Opt("-X", p.privPassphrase) + rest, q, q1);
      ReadOpt("-X", p.privPassphrase, rest, q1, q1.(privPassphrase := p.privPassphrase));
    } else {
      assert [] + rest == rest;
    }
  }

  lemma ReadUser(p: Params, rest: seq<string>)
    requires p.version == "3"
    ensures Read(UserArgs(p) + rest, BLANK) == Read(rest, Relevant(p).(target := "", oid := "", timeout := 0))
  {
    hide Read, Opt, WithOption, UsesAuth, UsesPriv;
    var auth := if UsesAuth(p) then Opt("-a", p.authProtocol) + Opt("-A", p.authPassphrase) else [];
    var priv := if UsesPriv(p) then Opt("-x", p.privProtocol) + Opt("-X", p.privPassphrase) else [];
    var e := Opt("-e", p.engineID) + rest;
    var n := Opt("-n", p.contextName) + e;
    var x := priv + n;
    var a := auth + x;
    var l := Opt("-l", p.secLevel) + a;
    assert UserArgs(p) + rest == ["-v", "3"] + (["-u", p.secName] + l);
    var q1 := BLANK.(version := "3");
    var q2 := q1.(secName := p.secName);
    var q3 := q2.(secLevel := p.secLevel);
    var q4 := if UsesAuth(p) then q3.(authProtocol := p.authProtocol, authPassphrase := p.authPassphrase) else q3;
    var q5 := if UsesPriv(p) then q4.(privProtocol := p.privProtocol, privPassphrase := p.privPassphrase) else q4;
    var q6 := q5.(contextName := p.contextName);
    var q7 := q6.(engineID := p.engineID);
    WithNames(p, q1, q2, q5, q6);
    ReadOption("-v", "3", ["-u", p.secName] + l, BLANK, q1);
    ReadOption("-u", p.secName, l, q1, q2);
    ReadOpt("-l", p.secLevel, a, q2, q3);
    ReadAuth(p, x, q3);
    ReadPriv(p, n, q4);
    ReadOpt("-n", p.contextName, e, q5, q6);
    ReadOpt("-e", p.engineID, rest, q6, q7);
    assert q7 == Relevant(p).(target := "", oid := "", timeout := 0);
  }

  lemma WithNames(p: Params, q1: Params, q2: Params, q5: Params, q6: Params)
    ensures WithOption(BLANK, "-v", p.version) == Some(BLANK.(version := p.version))
    ensures WithOption(q1, "-u", p.secName) == Some(q1.(secName := p.secName))
    ensures WithOption(q2, "-l", p.secLevel) == Some(q2.(secLevel := p.secLevel))
    ensures WithOption(q5, "-n", p.contextName) == Some(q5.(contextName := p.contextName))
    ensures WithOption(q6, "-e", p.engineID) == Some(q6.(engineID := p.engineID))
  {}

  lemma ReadCommunity(version: string, community: string, rest: seq<string>)
    ensures Read(["-v", version, "-c", community] + rest, BLANK) ==
            Read(rest, BLANK.(version := version, community := community))
  {
    hide Read;
    var q := BLANK.(version := version);
    assert ["-v", version, "-c", community] + rest == ["-v", version] + (["-c", community] + rest);
    ReadOption("-v", version, ["-c", community] + rest, BLANK, q);
    ReadOption("-c", community, rest, q, q.(community := community));
  }

  lemma {:induction false} HostNoDash(target: string, isIP: string -> bool)
    requires ParsesAddresses(isIP) && (isIP(HostOf(target)) || HostName(HostOf(target)))
    ensures !IsFlag(target)
  {
    var host := HostOf(target);
    if HostName(host) {
      FirstLabel(host);
    }
    assert host != "" && host[0] != '-';
  }

  lemma FirstLabel(host: string)
    requires HostName(host)
    ensures host != "" && IsAlnum(host[0])
  {
    assert Split(host, '.')[0] in Split(host, '.');
  }

  /** From validated parameters the command line gives every relevant field back, and nothing else. */
  lemma {:induction false} ArgsRoundTrip(p: Params, isIP: string -> bool)
    requires ParsesAddresses(isIP) && Validated(p, isIP).error.None?
    ensures var q := Validated(p, isIP).params;
            && Read(Args(q), BLANK) == Some(Relevant(q))
            && !IsFlag(q.target) && !IsFlag(q.oid)
  {
    var q := Validated(p, isIP).params;
    ValidatedNormal(p, isIP);
    NormalRoundTrip(q, isIP);
  }

  lemma {:induction false} NormalRoundTrip(q: Params, isIP: string -> bool)
    requires ParsesAddresses(isIP) && Normal(q, isIP)
    ensures Read(Args(q), BLANK) == Some(Relevant(q)) && !IsFlag(q.target) && !IsFlag(q.oid)
  {
    hide HostOf, HostName, IsOID, Read, UserArgs;
    HostNoDash(q.target, isIP);
    OIDTrimmed(q.oid);
    var end := ["-t", ItoaInt(q.timeout), q.target, q.oid];
    if q.version == "3" {
      ReadUser(q, end);
      ReadEnd(Relevant(q).(target := "", oid := "", timeout := 0), q.timeout, q.target, q.oid);
    } else {
      WordNonEmpty(q.community, "_-");
      ReadCommunity(q.version, q.community, end);
      ReadEnd(BLANK.(version := q.version, community := q.community), q.timeout, q.target, q.oid);
    }
  }
}
