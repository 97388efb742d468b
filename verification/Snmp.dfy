/** SNMP parameters (common/metrics.go): `Validate` and `BuildCLIArgs`. */
module Snmp {
  import opened Text

  datatype Params = Params(
    version: string, target: string, community: string, oid: string, timeout: int,
    secLevel: string, secName: string, authProtocol: string, authPassphrase: string,
    privProtocol: string, privPassphrase: string, contextName: string, engineID: string)

  datatype Error =
    | EmptyTarget | UnsafeTarget | BadVersion | BadCommunity | NoSecName | BadSecName | BadSecLevel
    | BadAuthProtocol | NoAuthPassphrase | BadAuthPassphrase
    | BadPrivProtocol | NoPrivPassphrase | BadPrivPassphrase
    | BadContextName | BadEngineID | BadOID | TimeoutTooLong

  /** Where validation stopped: the fields as they are then, and the error, if any. */
  datatype Outcome = Outcome(params: Params, error: Option<Error>) {
    function Then(next: Params -> Outcome): Outcome {
      if error.Some? then this else next(params)
    }
  }

  // ---- regular expressions ---------------------------------------------------------------------

  /** A non-empty string of letters, digits and these other characters. */
  predicate Word(s: string, others: string) { s != "" && forall c | c in s :: IsAlnum(c) || c in others }

  predicate Label(s: string) {
    1 <= |s| <= 63 && IsAlnum(s[0]) && IsAlnum(s[|s| - 1]) && Word(s, "-")
  }

  /** hostnameRegex */
  predicate HostName(s: string) { forall l | l in Split(s, '.') :: Label(l) }

  /** oidRegex */
  predicate IsOID(s: string) {
    DottedNumbers(if s != "" && s[0] == '.' then s[1..] else s)
  }

  predicate DottedNumbers(s: string) { forall part | part in Split(s, '.') :: part != "" && AllDigits(part) }

  /** safePassphraseRegex */
  predicate SafePassphrase(s: string) {
    s != "" && forall c | c in s :: c !in "\t\n\r \"';|&<>`" && c != 12 as char
  }

  predicate IsVersion(s: string) { s in ["1", "2c", "3"] }

  /** authProtocolRegex */
  predicate IsAuthProtocol(s: string) { s in ["MD5", "SHA", "SHA-224", "SHA-256", "SHA-384", "SHA-512"] }

  /** privProtocolRegex */
  predicate IsPrivProtocol(s: string) { s in ["DES", "AES", "AES-128", "AES-192", "AES-256"] }

  /** net.SplitHostPort, or the whole text when that fails. */
  function HostOf(target: string): string {
    if target != "" && target[0] == '[' then
      match Cut(target, ']')
      case Some((open, rest)) =>
        assert open[0] == '[';
        if rest != "" && rest[0] == ':' && ':' !in rest[1..] && '[' !in target[1..] && ']' !in rest
        then open[1..] else target
      case None => target
    else
      match Cut(target, ':')
      case Some((host, port)) =>
        if ':' !in port && '[' !in target && ']' !in target then host else target
      case None => target
  }

  predicate NoneOf(s: string, cs: string) { forall c | c in cs :: c !in s }

  /** host:port */
  lemma HostWithPort(host: string, port: string)
    requires NoneOf(host, ":[]") && NoneOf(port, ":[]")
    ensures HostOf(host + ":" + port) == host
  {
    var t := host + ":" + port;
    CutAtFirst(host, ':', port);
    assert host + [':'] + port == t;
    assert ':' in ":[]" && '[' in ":[]" && ']' in ":[]";
    assert t[0] != '[' by { assert host != "" ==> host[0] in host && t[0] == host[0]; }
  }

  /** [host]:port, where the host may be an IPv6 address */
  lemma BracketedWithPort(host: string, port: string)
    requires NoneOf(host, "[]") && NoneOf(port, ":[]")
    ensures HostOf("[" + host + "]:" + port) == host
  {
    var t := "[" + host + "]:" + port;
    assert '[' in "[]" && ']' in "[]" && ':' in ":[]" && '[' in ":[]" && ']' in ":[]";
    CutAtFirst("[" + host, ']', ":" + port);
    assert ("[" + host) + [']'] + (":" + port) == t;
    assert t[1..] == host + "]:" + port && (":" + port)[1..] == port && ("[" + host)[1..] == host;
  }

  /** Any other target is a host as it stands, an IPv6 address without brackets, say. */
  lemma HostDecided(target: string)
    ensures var host := HostOf(target);
            || host == target
            || (exists port: string :: NoneOf(host, ":[]") && NoneOf(port, ":[]") && target == host + ":" + port)
            || (exists port: string :: NoneOf(host, "[]") && NoneOf(port, ":[]") && target == "[" + host + "]:" + port)
  {
    if target != "" && target[0] == '[' {
      match Cut(target, ']')
      case None =>
      case Some((open, rest)) =>
        if HostOf(target) != target {
          var host, port := open[1..], rest[1..];
          assert open == "[" + host && rest == ":" + port && target == "[" + host + "]:" + port;
          assert forall c | c in host :: c in target[1..] && c in open;
          assert forall c | c in port :: c in target[1..] && c in rest;
          assert NoneOf(host, "[]") && NoneOf(port, ":[]");
        }
    } else {
      match Cut(target, ':')
      case None =>
      case Some((host, port)) =>
        assert target == host + ":" + port;
    }
  }

  /** What is used of net.ParseIP: the text of an address does not start with a dash. */
  ghost predicate ParsesAddresses(isIP: string -> bool) {
    forall s :: isIP(s) ==> s != "" && s[0] != '-'
  }

  // ---- validation, field by field --------------------------------------------------------------

  function Checked(p: Params, ok: bool, error: Error): Outcome { Outcome(p, if ok then None else Some(error)) }

  function CheckTarget(p: Params, isIP: string -> bool): Outcome {
    var q := p.(target := Trim(p.target));
    if q.target == "" then Outcome(q, Some(EmptyTarget))
    else Checked(q, isIP(HostOf(q.target)) || HostName(HostOf(q.target)), UnsafeTarget)
  }

  function VersionOf(v: string): string {
    if v == "" || v == "v2c" then "2c" else if v == "v1" then "1" else if v == "v3" then "3" else v
  }

  function CheckVersion(p: Params): Outcome {
    var q := p.(version := VersionOf(Trim(ToLower(p.version))));
    Checked(q, IsVersion(q.version), BadVersion)
  }

  function OrElse(s: string, default: string): string { if s == "" then default else s }

  function CheckCommunity(p: Params): Outcome {
    var q := p.(community := OrElse(Trim(p.community), "public"));
    Checked(q, Word(q.community, "_-"), BadCommunity)
  }

  function CheckSecName(p: Params): Outcome {
    var q := p.(secName := Trim(p.secName));
    if q.secName == "" then Outcome(q, Some(NoSecName)) else Checked(q, Word(q.secName, "_-.@"), BadSecName)
  }

  function DefaultLevel(p: Params): string {
    if p.privPassphrase != "" then "authPriv" else if p.authPassphrase != "" then "authNoPriv" else "noAuthNoPriv"
  }

  function LevelOf(lower: string): Option<string> {
    match lower
    case "noauthnopriv" => Some("noAuthNoPriv")
    case "authnopriv" => Some("authNoPriv")
    case "authpriv" => Some("authPriv")
    case _ => None
  }

  function CheckSecLevel(p: Params): Outcome {
    var q := p.(secLevel := OrElse(Trim(p.secLevel), DefaultLevel(p)));
    match LevelOf(ToLower(q.secLevel))
    case Some(level) => Outcome(q.(secLevel := level), None)
    case None => Outcome(q, Some(BadSecLevel))
  }

  predicate UsesAuth(p: Params) { p.secLevel == "authNoPriv" || p.secLevel == "authPriv" }

  predicate UsesPriv(p: Params) { p.secLevel == "authPriv" }

  function AuthProtocolOf(name: string): string {
    match name
    case "" => "SHA"
    case "SHA1" => "SHA"
    case "SHA256" => "SHA-256"
    case "SHA384" => "SHA-384"
    case "SHA512" => "SHA-512"
    case _ => name
  }

  function PrivProtocolOf(name: string): string {
    match name
    case "" => "AES"
    case "AES128" => "AES-128"
    case "AES192" => "AES-192"
    case "AES256" => "AES-256"
    case _ => name
  }

  function CheckAuth(p: Params): Outcome {
    if !UsesAuth(p) then Outcome(p, None)
    else
      var q := p.(authProtocol := AuthProtocolOf(Trim(ToUpper(p.authProtocol))));
      if !IsAuthProtocol(q.authProtocol) then Outcome(q, Some(BadAuthProtocol))
      else if q.authPassphrase == "" then Outcome(q, Some(NoAuthPassphrase))
      else Checked(q, SafePassphrase(q.authPassphrase), BadAuthPassphrase)
  }

  function CheckPriv(p: Params): Outcome {
    if !UsesPriv(p) then Outcome(p, None)
    else
      var q := p.(privProtocol := PrivProtocolOf(Trim(ToUpper(p.privProtocol))));
      if !IsPrivProtocol(q.privProtocol) then Outcome(q, Some(BadPrivProtocol))
      else if q.privPassphrase == "" then Outcome(q, Some(NoPrivPassphrase))
      else Checked(q, SafePassphrase(q.privPassphrase), BadPrivPassphrase)
  }

  function CheckContext(p: Params): Outcome {
    var q := p.(contextName := Trim(p.contextName));
    Checked(q, q.contextName == "" || Word(q.contextName, "_-."), BadContextName)
  }

  function CheckEngine(p: Params): Outcome {
    var q := p.(engineID := Trim(p.engineID));
    Checked(q, q.engineID == "" || Word(q.engineID, ""), BadEngineID)
  }

  function CheckUser(p: Params): Outcome {
    CheckSecName(p).Then(CheckSecLevel).Then(CheckAuth).Then(CheckPriv).Then(CheckContext).Then(CheckEngine)
  }

  function CheckCredentials(p: Params): Outcome {
    if p.version == "3" then CheckUser(p) else CheckCommunity(p)
  }

  function CheckOID(p: Params): Outcome {
    var q := p.(oid := OrElse(Trim(p.oid), ".1.3.6"));
    Checked(q, IsOID(q.oid), BadOID)
  }

  function CheckTimeout(p: Params): Outcome {
    if p.timeout <= 0 then Outcome(p.(timeout := 5), None) else Checked(p, p.timeout <= 15, TimeoutTooLong)
  }

  function Validated(p: Params, isIP: string -> bool): Outcome {
    CheckTarget(p, isIP).Then(CheckVersion).Then(CheckCredentials).Then(CheckOID).Then(CheckTimeout)
  }

  // ---- what validated parameters look like -----------------------------------------------------

  ghost predicate NormalCredentials(p: Params) {
    if p.version == "3" then
      && Word(p.secName, "_-.@")
      && p.secLevel in ["noAuthNoPriv", "authNoPriv", "authPriv"]
      && (UsesAuth(p) ==> IsAuthProtocol(p.authProtocol) && SafePassphrase(p.authPassphrase))
      && (UsesPriv(p) ==> IsPrivProtocol(p.privProtocol) && SafePassphrase(p.privPassphrase))
      && (p.contextName == "" || Word(p.contextName, "_-."))
      && (p.engineID == "" || Word(p.engineID, ""))
    else Word(p.community, "_-")
  }

  ghost predicate Normal(p: Params, isIP: string -> bool) {
    && p.target != "" && Trimmed(p.target) && (isIP(HostOf(p.target)) || HostName(HostOf(p.target)))
    && IsVersion(p.version)
    && NormalCredentials(p)
    && IsOID(p.oid)
    && 1 <= p.timeout <= 15
  }

  lemma {:induction false} WordTrimmed(s: string, others: string)
    requires Word(s, others) && forall c | c in others :: !IsSpace(c)
    ensures Trim(s) == s
  {
    assert s[0] in s && s[|s| - 1] in s;
    TrimOfTrimmed(s);
  }

  lemma DottedNumbersHold(s: string)
    requires DottedNumbers(s)
    ensures s != "" && forall c | c in s :: IsDigit(c) || c == '.'
  {
    assert Split(s, '.')[0] in Split(s, '.');
    forall c | c in s ensures IsDigit(c) || c == '.' {
      PartOrSeparator(s, '.', c);
    }
  }

  lemma OIDTrimmed(s: string)
    requires IsOID(s)
    ensures s != "" && s[0] != '-' && Trim(s) == s
  {
    hide DottedNumbers, Trim;
    var digits := if s != "" && s[0] == '.' then s[1..] else s;
    DottedNumbersHold(digits);
    assert s == digits || s == ['.'] + digits;
    assert s[0] in s && s[|s| - 1] in s;
    TrimOfTrimmed(s);
  }

  lemma {:induction false} PartOrSeparator(s: string, sep: char, c: char)
    requires c in s
    ensures c == sep || exists part :: part in Split(s, sep) && c in part
  {
    var rest, parts := Split(s[1..], sep), Split(s, sep);
    if c == s[0] {
      assert parts[0] in parts;
    } else {
      PartOrSeparator(s[1..], sep, c);
      if c != sep {
        var i :| 0 <= i < |rest| && c in rest[i];
        var at := if s[0] == sep then i + 1 else i;
        assert c in parts[at] && parts[at] in parts;
      }
    }
  }

  // ---- the defaults -----------------------------------------------------------------------------

  lemma PublicIsWord()
    ensures Word("public", "_-")
  {}

  lemma DefaultIsOID()
    ensures IsOID(".1.3.6")
  {
    assert ".1.3.6"[1..] == "1" + ['.'] + ("3" + ['.'] + "6");
    SplitAtFirst("1", '.', "3" + ['.'] + "6");
    SplitAtFirst("3", '.', "6");
    SplitNone("6", '.');
  }

  // ---- success means normal, and normal parameters stay as they are -----------------------------

  lemma {:induction false} TargetNormal(p: Params, isIP: string -> bool)
    requires CheckTarget(p, isIP).error.None?
    ensures var t := CheckTarget(p, isIP).params.target;
            t != "" && Trimmed(t) && (isIP(HostOf(t)) || HostName(HostOf(t)))
  {
    hide HostOf, HostName;
    TrimIsTrimmed(p.target);
  }

  lemma {:induction false} UserNormal(p: Params)
    requires p.version == "3" && CheckUser(p).error.None?
    ensures var q := CheckUser(p).params;
            NormalCredentials(q) && q.version == p.version && q.target == p.target
  {
    hide Trim, ToLower, ToUpper, Word, SafePassphrase, AuthProtocolOf, PrivProtocolOf, DefaultLevel;
  }

  lemma {:induction false} ValidatedNormal(p: Params, isIP: string -> bool)
    requires Validated(p, isIP).error.None?
    ensures Normal(Validated(p, isIP).params, isIP)
  {
    hide HostOf, HostName, Trim, ToLower, IsOID, VersionOf, CheckUser, CheckTarget, Word, OrElse;
    TargetNormal(p, isIP);
    var q := CheckTarget(p, isIP).Then(CheckVersion).params;
    if q.version == "3" {
      UserNormal(q);
    }
  }

  lemma {:induction false} AuthNameFixed(s: string)
    requires IsAuthProtocol(s)
    ensures ToUpper(s) == s && Trim(s) == s && AuthProtocolOf(s) == s
  {
    hide Trim;
    assert forall i | 0 <= i < |s| :: UpperChar(s[i]) == s[i];
    TrimOfTrimmed(s);
  }

  lemma {:induction false} PrivNameFixed(s: string)
    requires IsPrivProtocol(s)
    ensures ToUpper(s) == s && Trim(s) == s && PrivProtocolOf(s) == s
  {
    hide Trim;
    assert forall i | 0 <= i < |s| :: UpperChar(s[i]) == s[i];
    TrimOfTrimmed(s);
  }

  lemma LowerLevels()
    ensures ToLower("noAuthNoPriv") == "noauthnopriv"
    ensures ToLower("authNoPriv") == "authnopriv"
    ensures ToLower("authPriv") == "authpriv"
  {}

  lemma {:induction false} LevelFixed(p: Params)
    requires p.secLevel in ["noAuthNoPriv", "authNoPriv", "authPriv"]
    ensures CheckSecLevel(p) == Outcome(p, None)
  {
    hide Trim, ToLower;
    TrimOfTrimmed(p.secLevel);
    LowerLevels();
  }

  lemma {:induction false} AuthFixed(p: Params)
    requires UsesAuth(p) ==> IsAuthProtocol(p.authProtocol) && SafePassphrase(p.authPassphrase)
    requires UsesPriv(p) ==> IsPrivProtocol(p.privProtocol) && SafePassphrase(p.privPassphrase)
    ensures CheckAuth(p) == Outcome(p, None) && CheckPriv(p) == Outcome(p, None)
  {
    hide Trim, ToUpper, AuthProtocolOf, PrivProtocolOf, IsAuthProtocol, IsPrivProtocol;
    if UsesAuth(p) {
      AuthNameFixed(p.authProtocol);
    }
    if UsesPriv(p) {
      PrivNameFixed(p.privProtocol);
    }
  }

  lemma WordFixed(s: string, others: string)
    requires s == "" || (Word(s, others) && forall c | c in others :: !IsSpace(c))
    ensures Trim(s) == s
  {
    if s == "" {
      TrimOfTrimmed(s);
    } else {
      WordTrimmed(s, others);
    }
  }

  lemma WordNonEmpty(s: string, others: string)
    requires Word(s, others)
    ensures s != ""
  {}

  lemma UserFixed(p: Params)
    requires p.version == "3" && NormalCredentials(p)
    ensures CheckUser(p) == Outcome(p, None)
  {
    hide Trim, ToLower, ToUpper, Word, SafePassphrase, AuthProtocolOf, PrivProtocolOf, DefaultLevel,
         CheckSecLevel, CheckAuth, CheckPriv;
    WordFixed(p.secName, "_-.@");
    WordFixed(p.contextName, "_-.");
    WordFixed(p.engineID, "");
    LevelFixed(p);
    AuthFixed(p);
    WordNonEmpty(p.secName, "_-.@");
  }

  lemma LowerVersions()
    ensures ToLower("1") == "1" && ToLower("2c") == "2c" && ToLower("3") == "3"
  {}

  lemma {:induction false} VersionFixed(p: Params)
    requires IsVersion(p.version)
    ensures CheckVersion(p) == Outcome(p, None)
  {
    hide Trim, ToLower;
    LowerVersions();
    TrimOfTrimmed(p.version);
  }

  /** The parameters that validation accepts and leaves alone are exactly the normal ones. */
  lemma {:induction false} NormalExactly(p: Params, isIP: string -> bool)
    ensures Validated(p, isIP) == Outcome(p, None) <==> Normal(p, isIP)
  {
    hide HostOf, HostName, Trim, ToLower, IsOID, VersionOf, CheckUser, CheckVersion, Word;
    if Normal(p, isIP) {
      TrimOfTrimmed(p.target);
      VersionFixed(p);
      if p.version == "3" {
        UserFixed(p);
      } else {
        WordFixed(p.community, "_-");
        WordNonEmpty(p.community, "_-");
      }
      OIDTrimmed(p.oid);
    } else if Validated(p, isIP) == Outcome(p, None) {
      ValidatedNormal(p, isIP);
    }
  }

  /** Validating once more changes nothing. */
  lemma {:induction false} Idempotent(p: Params, isIP: string -> bool)
    requires Validated(p, isIP).error.None?
    ensures Validated(Validated(p, isIP).params, isIP) == Validated(p, isIP)
  {
    ValidatedNormal(p, isIP);
    NormalExactly(Validated(p, isIP).params, isIP);
  }

  lemma {:induction false} UserKept(p: Params)
    ensures var q := CheckUser(p).params;
            q.(secName := p.secName, secLevel := p.secLevel, authProtocol := p.authProtocol,
               privProtocol := p.privProtocol, contextName := p.contextName, engineID := p.engineID) == p
  {
    hide Trim, ToLower, ToUpper, OrElse, DefaultLevel, Word, SafePassphrase, AuthProtocolOf, PrivProtocolOf, LevelOf,
         UsesAuth, UsesPriv;
  }

  /** Validation never alters a passphrase, and leaves the fields of the other versions alone. */
  lemma {:induction false} RestKept(p: Params, isIP: string -> bool)
    ensures var q := Validated(p, isIP).params;
            && q.authPassphrase == p.authPassphrase && q.privPassphrase == p.privPassphrase
            && (q.version == "3" ==> q.community == p.community)
            && (q.version != "3" ==> q == p.(target := q.target, version := q.version, community := q.community,
                                             oid := q.oid, timeout := q.timeout))
  {
    hide HostOf, HostName, Trim, ToLower, IsOID, VersionOf, OrElse, Word, CheckUser;
    UserKept(CheckTarget(p, isIP).Then(CheckVersion).params);
  }
}
