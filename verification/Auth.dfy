/** The decision part of `ServeHTTP` (hub/server.go): who may open a connection, and which key is stored. */
module Auth {
  import opened Text
  import opened KeyFile

  /** What is under an agent's name in the directory of authorized keys. */
  datatype Stored = Broken | Holds(key: Key)

  /** What is read back from the file that SavePublicKeyPEM writes: a key of any other size than that of
      Ed25519 is written all the same, but does not load. */
  function Saved(key: Key): Stored { if |key| == KEY_SIZE then Holds(key) else Broken }

  /** So it is: what loads from a file with a saved key is Saved. */
  lemma SavedIsLoaded(key: Key, write: PemWriter, pem: PemReader)
    requires PemReadsBack(write, pem)
    ensures Saved(key) == match LoadKey(write(key), pem) case Some(k) => Holds(k) case None => Broken
  {
    assert "" + write(key) + "" == write(key);
    SavedKeyLoads(key, "", "", write, pem);
  }

  datatype Config = Config(authToken: string, registrationToken: string, keysDir: bool)

  /** A connection request; every field is the header if it is set and the query parameter otherwise. */
  datatype Request = Request(agentID: string, signature: string, timestamp: string, token: string, publicKey: string)

  datatype Verdict = Rejected(status: nat) | ByToken | BySignature(key: Key) | ByRegistration(key: Key) {
    predicate Accepted() { !Rejected? }
  }

  /** ed25519.Verify on a base64 signature. */
  type Verifier = (Key, string, string) -> bool

  /** VerifyChallenge */
  predicate Proves(verify: Verifier, key: Key, r: Request) {
    verify(key, Challenge(r.agentID, r.timestamp), r.signature)
  }

  const STD := Encoding(false, true)

  // ---- the clock -------------------------------------------------------------------------

  /** The value of an int64 expression. */
  function Wrap64(n: int): (w: int)
    ensures -0x8000_0000_0000_0000 <= w < 0x8000_0000_0000_0000
    ensures (w - n) % 0x1_0000_0000_0000_0000 == 0
  {
    (n + 0x8000_0000_0000_0000) % 0x1_0000_0000_0000_0000 - 0x8000_0000_0000_0000
  }

  const MAX_SKEW := 120

  predicate Fresh(now: int, timestamp: int) {
    var skew := Wrap64(now - timestamp);
    var skew' := if skew < 0 then Wrap64(-skew) else skew;
    skew' <= MAX_SKEW
  }

  /** The check on int64 values admits two minutes either way, and one timestamp besides: 2^63 seconds ago,
      whose difference to the clock cannot be negated. */
  lemma FreshExactly(now: int, timestamp: int)
    requires 0 <= now < 0x8000_0000_0000_0000 - 120
    requires -0x8000_0000_0000_0000 <= timestamp < 0x8000_0000_0000_0000
    ensures Fresh(now, timestamp) <==>
            -120 <= now - timestamp <= 120 || now - timestamp == 0x8000_0000_0000_0000
  {
    var d := now - timestamp;
    assert Wrap64(d) == if d < 0x8000_0000_0000_0000 then d else d - 0x1_0000_0000_0000_0000;
    if Wrap64(d) < 0 {
      assert Wrap64(-Wrap64(d)) == if Wrap64(d) == -0x8000_0000_0000_0000 then Wrap64(d) else -Wrap64(d);
    }
  }

  // ---- the decision ----------------------------------------------------------------------

  /** The token that lets an unknown agent register its key. */
  function RegistrationSecret(c: Config): string {
    if c.registrationToken != "" then c.registrationToken else c.authToken
  }

  function BySigning(c: Config, file: Option<Stored>, r: Request, now: int, verify: Verifier): Verdict {
    if !c.keysDir then Rejected(401)
    else match Atoi(r.timestamp) {
      case None => Rejected(401)
      case Some(t) =>
        if !Fresh(now, t) then Rejected(401)
        else match file {
          case Some(Broken) => Rejected(401)
          case Some(Holds(key)) => if Proves(verify, key, r) then BySignature(key) else Rejected(401)
          case None =>
            if RegistrationSecret(c) == "" || r.token != RegistrationSecret(c) || r.publicKey == "" then Rejected(401)
            else match Decode(STD, r.publicKey) {
              case None => Rejected(401)
              case Some(key) =>
                if |key| != KEY_SIZE || !Proves(verify, key, r) then Rejected(401) else ByRegistration(key)
            }
        }
    }
  }

  function Authenticate(c: Config, file: Option<Stored>, r: Request, now: int, verify: Verifier): Verdict {
    if r.agentID == "" || !ValidAgentID(r.agentID) then Rejected(400)
    else if r.signature != "" && r.timestamp != "" then BySigning(c, file, r, now, verify)
    else if c.keysDir && file.Some? then Rejected(401)
    else if c.authToken == "" || r.token != c.authToken then Rejected(401)
    else ByToken
  }

  /** Once a key file exists for the id, the request is accepted only with a signature that the stored key
      verifies, made for this very id within the admitted time; it registers nothing. */
  lemma StoredKeyDecides(c: Config, file: Stored, r: Request, now: int, verify: Verifier)
    requires c.keysDir
    ensures var v := Authenticate(c, Some(file), r, now, verify);
            && !v.ByToken? && !v.ByRegistration?
            && (v.Accepted() <==>
                  && ValidAgentID(r.agentID) && r.signature != ""
                  && Atoi(r.timestamp).Some? && Fresh(now, Atoi(r.timestamp).value)
                  && file.Holds? && Proves(verify, file.key, r))
  {}

  /** A login registers a key exactly when the hub has none for the id, the secret is shown, and a fresh
      challenge is signed for the key that is presented. */
  lemma RegistersExactly(c: Config, file: Option<Stored>, r: Request, now: int, verify: Verifier, key: Key)
    ensures Authenticate(c, file, r, now, verify) == ByRegistration(key) <==>
              && ValidAgentID(r.agentID) && r.signature != "" && c.keysDir && file.None?
              && Atoi(r.timestamp).Some? && Fresh(now, Atoi(r.timestamp).value)
              && r.token == RegistrationSecret(c) != ""
              && Decode(STD, r.publicKey) == Some(key) && |key| == KEY_SIZE && Proves(verify, key, r)
  {
    hide Fresh, Proves;
    if r.timestamp == "" {
      assert Atoi(r.timestamp).None?;
    }
    if r.publicKey == "" {
      assert Decode(STD, "") == Some([]);
    }
  }

  /** The token alone lets an agent in exactly when no signature is offered and the hub has no key for the id. */
  lemma TokenExactly(c: Config, file: Option<Stored>, r: Request, now: int, verify: Verifier)
    ensures Authenticate(c, file, r, now, verify) == ByToken <==>
              && ValidAgentID(r.agentID) && (r.signature == "" || r.timestamp == "")
              && !(c.keysDir && file.Some?) && r.token == c.authToken != ""
  {
    hide Atoi, Decode, Fresh, Proves;
  }

  // ---- who gets in -----------------------------------------------------------------------------

  /** Letters, digits, underscores and dashes. */
  ghost predicate IDCharacter(c: char) {
    'a' <= c <= 'z' || 'A' <= c <= 'Z' || '0' <= c <= '9' || c == '_' || c == '-'
  }

  ghost predicate Timely(r: Request, now: int) {
    Atoi(r.timestamp).Some? && Fresh(now, Atoi(r.timestamp).value)
  }

  /** With the token: no signature is offered, and the hub has no key for the id. */
  ghost predicate MayUseToken(c: Config, file: Option<Stored>, r: Request) {
    (r.signature == "" || r.timestamp == "") && !(c.keysDir && file.Some?) && r.token == c.authToken != ""
  }

  /** With a signature by the key that the hub has. */
  ghost predicate SignsWith(c: Config, file: Option<Stored>, r: Request, now: int, verify: Verifier, key: Key) {
    r.signature != "" && c.keysDir && file == Some(Holds(key)) && Timely(r, now) && Proves(verify, key, r)
  }

  /** By registering a key of its own: the hub has none, and the secret is the registration token or, where that is
      not configured, the token. */
  ghost predicate MayRegister(c: Config, file: Option<Stored>, r: Request, now: int, verify: Verifier, key: Key) {
    && r.signature != "" && c.keysDir && file.None? && Timely(r, now)
    && r.token != "" && r.token == (if c.registrationToken != "" then c.registrationToken else c.authToken)
    && Decode(STD, r.publicKey) == Some(key) && |key| == 32 && Proves(verify, key, r)
  }

  /** The acceptance law, for every state of the key file: an agent gets in if and only if its id is valid and one of
      the three conditions holds, and the verdict says which. Everybody else gets 400 for the id or 401. */
  lemma {:induction false} AcceptedExactly(c: Config, file: Option<Stored>, r: Request, now: int, verify: Verifier)
    ensures var v := Authenticate(c, file, r, now, verify);
            var valid := r.agentID != "" && forall ch | ch in r.agentID :: IDCharacter(ch);
            && (v == ByToken <==> valid && MayUseToken(c, file, r))
            && (forall key :: v == BySignature(key) <==> valid && SignsWith(c, file, r, now, verify, key))
            && (forall key :: v == ByRegistration(key) <==> valid && MayRegister(c, file, r, now, verify, key))
            && (v.Rejected? ==> v.status == if valid then 401 else 400)
  {
    hide Atoi, Decode, Fresh, Proves;
    ValidIDs(r.agentID);
    TokenExactly(c, file, r, now, verify);
    SignatureExactly(c, file, r, now, verify);
    forall key ensures Authenticate(c, file, r, now, verify) == ByRegistration(key) <==>
                       ValidAgentID(r.agentID) && MayRegister(c, file, r, now, verify, key)
    {
      RegistersExactly(c, file, r, now, verify, key);
    }
    RejectedWith(c, file, r, now, verify);
  }

  lemma ValidIDs(id: string)
    ensures ValidAgentID(id) <==> id != "" && forall ch | ch in id :: IDCharacter(ch)
  {}

  lemma RejectedWith(c: Config, file: Option<Stored>, r: Request, now: int, verify: Verifier)
    ensures var v := Authenticate(c, file, r, now, verify);
            v.Rejected? ==> v.status == if ValidAgentID(r.agentID) then 401 else 400
  {
    hide Atoi, Decode, Fresh, Proves;
  }

  lemma SignatureExactly(c: Config, file: Option<Stored>, r: Request, now: int, verify: Verifier)
    ensures forall key :: Authenticate(c, file, r, now, verify) == BySignature(key) <==>
                          ValidAgentID(r.agentID) && SignsWith(c, file, r, now, verify, key)
  {
    hide Decode, Fresh, Proves;
    if r.timestamp == "" {
      assert Atoi(r.timestamp).None?;
    }
  }

  /** An agent that presents its own key and a good signature registers exactly that key. */
  lemma {:induction false} RegistrationStoresOwnKey(
      c: Config, id: string, t: nat, signature: string, key: Key, now: int, verify: Verifier)
    requires c.keysDir && ValidAgentID(id) && signature != "" && |key| == KEY_SIZE && RegistrationSecret(c) != ""
    requires t < 0x8000_0000_0000_0000 && Fresh(now, t) && verify(key, Challenge(id, Itoa(t)), signature)
    ensures var r := Request(id, signature, Itoa(t), RegistrationSecret(c), Encode(STD, key));
            Authenticate(c, None, r, now, verify) == ByRegistration(key)
  {
    AtoiOfItoa(t);
    Base64RoundTrip(STD, STD, key);
    EncodeLength(STD, key);
  }
}
