/** SNMP validation as tables: what every input is rewritten to, and why an input is refused. */
module SnmpTables {
  import opened Text
  import opened Snmp

  // ---- the accepted spellings, after trimming and mapping to one case ---------------------------

  const VERSIONS := map["" := "2c", "2c" := "2c", "v2c" := "2c", "1" := "1", "v1" := "1", "3" := "3", "v3" := "3"]

  const LEVELS := map["noauthnopriv" := "noAuthNoPriv", "authnopriv" := "authNoPriv", "authpriv" := "authPriv"]

  const AUTHS := map["" := "SHA", "SHA" := "SHA", "SHA1" := "SHA", "MD5" := "MD5", "SHA-224" := "SHA-224",
                     "SHA-256" := "SHA-256", "SHA256" := "SHA-256", "SHA-384" := "SHA-384", "SHA384" := "SHA-384",
                     "SHA-512" := "SHA-512", "SHA512" := "SHA-512"]

  const PRIVS := map["" := "AES", "AES" := "AES", "DES" := "DES", "AES-128" := "AES-128", "AES128" := "AES-128",
                     "AES-192" := "AES-192", "AES192" := "AES-192", "AES-256" := "AES-256", "AES256" := "AES-256"]

  /** A security level that is not given follows from the passphrases. */
  function LevelKey(p: Params): string {
    if Trim(p.secLevel) != "" then ToLower(Trim(p.secLevel))
    else if p.privPassphrase != "" then "authpriv"
    else if p.authPassphrase != "" then "authnopriv"
    else "noauthnopriv"
  }

  /** The first thing that is wrong with the user of version 3, in the order of the checks. */
  function UserProblem(p: Params): Option<Error> {
    if Trim(p.secName) == "" then Some(NoSecName)
    else if !Word(Trim(p.secName), "_-.@") then Some(BadSecName)
    else if LevelKey(p) !in LEVELS then Some(BadSecLevel)
    else
      var auth, priv := LevelKey(p) != "noauthnopriv", LevelKey(p) == "authpriv";
      if auth && Trim(ToUpper(p.authProtocol)) !in AUTHS then Some(BadAuthProtocol)
      else if auth && p.authPassphrase == "" then Some(NoAuthPassphrase)
      else if auth && !SafePassphrase(p.authPassphrase) then Some(BadAuthPassphrase)
      else if priv && Trim(ToUpper(p.privProtocol)) !in PRIVS then Some(BadPrivProtocol)
      else if priv && p.privPassphrase == "" then Some(NoPrivPassphrase)
      else if priv && !SafePassphrase(p.privPassphrase) then Some(BadPrivPassphrase)
      else if Trim(p.contextName) != "" && !Word(Trim(p.contextName), "_-.") then Some(BadContextName)
      else if Trim(p.engineID) != "" && !Word(Trim(p.engineID), "") then Some(BadEngineID)
      else None
  }

  /** The first thing that is wrong with an input. */
  function Problem(p: Params, isIP: string -> bool): Option<Error> {
    var host, version := HostOf(Trim(p.target)), Trim(ToLower(p.version));
    if Trim(p.target) == "" then Some(EmptyTarget)
    else if !isIP(host) && !HostName(host) then Some(UnsafeTarget)
    else if version !in VERSIONS then Some(BadVersion)
    else if VERSIONS[version] == "3" && UserProblem(p).Some? then UserProblem(p)
    else if VERSIONS[version] != "3" && Trim(p.community) != "" && !Word(Trim(p.community), "_-")
    then Some(BadCommunity)
    else if Trim(p.oid) != "" && !IsOID(Trim(p.oid)) then Some(BadOID)
    else if p.timeout > 15 then Some(TimeoutTooLong)
    else None
  }

  function At(table: map<string, string>, key: string): string { if key in table then table[key] else key }

  /** The user fields that are sent. */
  function RewrittenUser(p: Params): Params {
    var auth, priv := LevelKey(p) != "noauthnopriv", LevelKey(p) == "authpriv";
    p.(secName := Trim(p.secName), secLevel := At(LEVELS, LevelKey(p)),
       authProtocol := if auth then At(AUTHS, Trim(ToUpper(p.authProtocol))) else p.authProtocol,
       privProtocol := if priv then At(PRIVS, Trim(ToUpper(p.privProtocol))) else p.privProtocol,
       contextName := Trim(p.contextName), engineID := Trim(p.engineID))
  }

  function Rewritten(p: Params): Params {
    var version := At(VERSIONS, Trim(ToLower(p.version)));
    var q := if version == "3" then RewrittenUser(p)
             else p.(community := if Trim(p.community) == "" then "public" else Trim(p.community));
    q.(target := Trim(p.target), version := version,
       oid := if Trim(p.oid) == "" then ".1.3.6" else Trim(p.oid),
       timeout := if p.timeout <= 0 then 5 else p.timeout)
  }

  // ---- validation is these tables ---------------------------------------------------------------

  lemma VersionTable(v: string)
    ensures IsVersion(VersionOf(v)) <==> v in VERSIONS
    ensures v in VERSIONS ==> VersionOf(v) == VERSIONS[v]
  {}

  lemma LevelTable(l: string)
    ensures LevelOf(l) == if l in LEVELS then Some(LEVELS[l]) else None
  {}

  lemma AuthTable(a: string)
    ensures IsAuthProtocol(AuthProtocolOf(a)) <==> a in AUTHS
    ensures a in AUTHS ==> AuthProtocolOf(a) == AUTHS[a]
  {}

  lemma PrivTable(a: string)
    ensures IsPrivProtocol(PrivProtocolOf(a)) <==> a in PRIVS
    ensures a in PRIVS ==> PrivProtocolOf(a) == PRIVS[a]
  {}

  lemma LevelsTable(l: string)
    ensures l in LEVELS ==> (LEVELS[l] == "noAuthNoPriv" <==> l == "noauthnopriv")
    ensures l in LEVELS ==> (LEVELS[l] == "authPriv" <==> l == "authpriv")
    ensures l in LEVELS ==> LEVELS[l] in ["noAuthNoPriv", "authNoPriv", "authPriv"]
  {}

  lemma LevelKeyIs(p: Params)
    ensures ToLower(OrElse(Trim(p.secLevel), DefaultLevel(p))) == LevelKey(p)
  {
    hide Trim, ToLower;
    LowerLevels();
  }

  lemma SecLevelExactly(p: Params)
    ensures var o := CheckSecLevel(p);
            o.error == (if LevelKey(p) in LEVELS then None else Some(BadSecLevel)) &&
            (o.error.None? ==> o.params == p.(secLevel := LEVELS[LevelKey(p)]))
  {
    hide Trim, ToLower, LevelOf, DefaultLevel, LevelKey;
    LevelKeyIs(p);
    LevelTable(LevelKey(p));
  }

  lemma AuthExactly(p: Params)
    requires UsesAuth(p)
    ensures var o := CheckAuth(p);
            o.error == (if Trim(ToUpper(p.authProtocol)) !in AUTHS then Some(BadAuthProtocol)
                        else if p.authPassphrase == "" then Some(NoAuthPassphrase)
                        else if !SafePassphrase(p.authPassphrase) then Some(BadAuthPassphrase) else None) &&
            (o.error.None? ==> o.params == p.(authProtocol := AUTHS[Trim(ToUpper(p.authProtocol))]))
  {
    hide Trim, ToUpper, AuthProtocolOf, IsAuthProtocol, SafePassphrase, UsesAuth;
    AuthTable(Trim(ToUpper(p.authProtocol)));
  }

  lemma PrivExactly(p: Params)
    requires UsesPriv(p)
    ensures var o := CheckPriv(p);
            o.error == (if Trim(ToUpper(p.privProtocol)) !in PRIVS then Some(BadPrivProtocol)
                        else if p.privPassphrase == "" then Some(NoPrivPassphrase)
                        else if !SafePassphrase(p.privPassphrase) then Some(BadPrivPassphrase) else None) &&
            (o.error.None? ==> o.params == p.(privProtocol := PRIVS[Trim(ToUpper(p.privProtocol))]))
  {
    hide Trim, ToUpper, PrivProtocolOf, IsPrivProtocol, SafePassphrase, UsesPriv;
    PrivTable(Trim(ToUpper(p.privProtocol)));
  }

  lemma {:induction false} UserExactly(p: Params)
    ensures CheckUser(p).error == UserProblem(p)
    ensures UserProblem(p).None? ==> CheckUser(p).params == RewrittenUser(p)
  {
    hide Trim, ToLower, ToUpper, Word, SafePassphrase, CheckSecLevel, CheckAuth, CheckPriv, DefaultLevel, LevelKey;
    var q := CheckSecName(p).params;
    if CheckSecName(p).error.None? {
      SameKey(p);
      SecLevelExactly(q);
      if LevelKey(p) in LEVELS {
        LevelsTable(LevelKey(p));
        var l := q.(secLevel := LEVELS[LevelKey(p)]);
        var a := CheckAuth(l);
        AuthOrNot(l);
        if a.error.None? {
          PrivOrNot(a.params);
        }
      }
    }
  }

  lemma SameKey(p: Params)
    ensures LevelKey(p.(secName := Trim(p.secName))) == LevelKey(p)
  {
    hide Trim, ToLower;
  }

  lemma AuthOrNot(p: Params)
    ensures UsesAuth(p) <==> p.secLevel == "authNoPriv" || p.secLevel == "authPriv"
    ensures var o := CheckAuth(p);
            o.error == (if !UsesAuth(p) then None
                        else if Trim(ToUpper(p.authProtocol)) !in AUTHS then Some(BadAuthProtocol)
                        else if p.authPassphrase == "" then Some(NoAuthPassphrase)
                        else if !SafePassphrase(p.authPassphrase) then Some(BadAuthPassphrase) else None) &&
            (o.error.None? ==>
               o.params == if UsesAuth(p) then p.(authProtocol := AUTHS[Trim(ToUpper(p.authProtocol))]) else p)
  {
    hide Trim, ToUpper, AuthProtocolOf, IsAuthProtocol, SafePassphrase;
    if UsesAuth(p) {
      AuthExactly(p);
    }
  }

  lemma PrivOrNot(p: Params)
    ensures UsesPriv(p) <==> p.secLevel == "authPriv"
    ensures var o := CheckPriv(p);
            o.error == (if !UsesPriv(p) then None
                        else if Trim(ToUpper(p.privProtocol)) !in PRIVS then Some(BadPrivProtocol)
                        else if p.privPassphrase == "" then Some(NoPrivPassphrase)
                        else if !SafePassphrase(p.privPassphrase) then Some(BadPrivPassphrase) else None) &&
            (o.error.None? ==>
               o.params == if UsesPriv(p) then p.(privProtocol := PRIVS[Trim(ToUpper(p.privProtocol))]) else p)
  {
    hide Trim, ToUpper, PrivProtocolOf, IsPrivProtocol, SafePassphrase;
    if UsesPriv(p) {
      PrivExactly(p);
    }
  }

  lemma CommunityExactly(p: Params)
    ensures var o, c := CheckCommunity(p), Trim(p.community);
            o.error == (if c != "" && !Word(c, "_-") then Some(BadCommunity) else None) &&
            o.params == p.(community := if c == "" then "public" else c)
  {
    hide Trim, Word;
    PublicIsWord();
  }

  lemma OIDExactly(p: Params)
    ensures var o, c := CheckOID(p), Trim(p.oid);
            o.error == (if c != "" && !IsOID(c) then Some(BadOID) else None) &&
            o.params == p.(oid := if c == "" then ".1.3.6" else c)
  {
    hide Trim, IsOID;
    DefaultIsOID();
  }

  lemma VersionExactly(p: Params)
    ensures var o, v := CheckVersion(p), Trim(ToLower(p.version));
            o.error == (if v in VERSIONS then None else Some(BadVersion)) &&
            (o.error.None? ==> o.params == p.(version := VERSIONS[v]))
  {
    hide Trim, ToLower, VersionOf, IsVersion;
    VersionTable(Trim(ToLower(p.version)));
  }

  /** For every input: validation fails with the first problem in the order of the checks, and rewrites an input
      without a problem as the tables say. */
  lemma {:induction false} ValidatedExactly(p: Params, isIP: string -> bool)
    ensures Validated(p, isIP).error == Problem(p, isIP)
    ensures Problem(p, isIP).None? ==> Validated(p, isIP).params == Rewritten(p)
  {
    hide Trim, ToLower, HostOf, HostName, Word, IsOID, CheckVersion, CheckUser, CheckCommunity, CheckOID,
         UserProblem, RewrittenUser;
    var t := CheckTarget(p, isIP);
    if t.error.None? {
      VersionExactly(t.params);
      var v := CheckVersion(t.params);
      if v.error.None? {
        UserFields(p, v.params);
        UserExactly(v.params);
        CommunityExactly(v.params);
        var c := CheckCredentials(v.params);
        if c.error.None? {
          OIDExactly(c.params);
          KeptByUser(v.params);
        }
      }
    }
  }

  lemma KeptByUser(p: Params)
    ensures UserProblem(p).None? ==>
              RewrittenUser(p).oid == p.oid && RewrittenUser(p).timeout == p.timeout &&
              RewrittenUser(p).target == p.target && RewrittenUser(p).version == p.version
  {
    hide Trim, ToUpper, LevelKey, Word, SafePassphrase;
  }

  /** The checks of the user do not look at the other fields. */
  lemma UserFields(p: Params, q: Params)
    requires q == p.(target := q.target, version := q.version)
    ensures UserProblem(q) == UserProblem(p)
    ensures UserProblem(p).None? ==> RewrittenUser(q) == RewrittenUser(p).(target := q.target, version := q.version)
  {
    hide Trim, ToUpper, ToLower, Word, SafePassphrase;
  }
}
