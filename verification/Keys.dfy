/** Agent keys across the cluster: where every stored key comes from, and what a stored key forbids. */
module Keys {
  import opened Text
  import opened KeyFile
  import opened Auth
  import opened HubNode
  import opened Cluster

  /** Pairs of an agent id and a key. */
  type Pairs = iset<(string, Key)>

  ghost predicate StoresOnly(n: Node, ok: Pairs) {
    forall id | id in n.keys && n.keys[id].Holds? :: (id, n.keys[id].key) in ok
  }

  ghost predicate CarriesOnly(m: Msg, ok: Pairs) {
    m.PutKey? ==> match Decode(STD, m.text) case None => true case Some(key) => (m.id, key) in ok
  }

  /** Every key on every hub and on its way between hubs is one of `ok`. */
  ghost predicate KeysFrom(s: State, ok: Pairs) {
    && (forall h | h in s.hubs :: StoresOnly(s.hubs[h], ok))
    && (forall m | m in s.pool :: CarriesOnly(m, ok))
  }

  /** The login makes its hub store this key. */
  ghost predicate RegistersNow(s: State, e: Event, id: string, key: Key) {
    e.Login? && e.h in s.hubs && e.r.agentID == id && s.hubs[e.h].Judge(e.r, e.now, s.verify) == ByRegistration(key)
  }

  /** So does some login of the run. */
  ghost predicate Registers(s: State, es: seq<Event>, id: string, key: Key)
    decreases |es|
  {
    && es != []
    && (|| RegistersNow(s, es[0], id, key)
        || match Step(s, es[0]) case None => false case Some(t) => Registers(t, es[1..], id, key))
  }

  /** What a login shows that makes its hub store a key: at that moment the hub has no key for the id, the
      registration secret is shown, and a fresh challenge is signed for this very key. */
  ghost predicate Proven(s: State, e: Event, id: string, key: Key) {
    && e.Login? && e.h in s.hubs && e.r.agentID == id
    && id !in s.hubs[e.h].keys && s.hubs[e.h].config.keysDir
    && e.r.token == RegistrationSecret(s.hubs[e.h].config) != ""
    && Atoi(e.r.timestamp).Some? && Fresh(e.now, Atoi(e.r.timestamp).value)
    && |key| == KEY_SIZE && Decode(STD, e.r.publicKey) == Some(key) && Proves(s.verify, key, e.r)
  }

  lemma KeysAfter(n: Node, m: Msg, ok: Pairs)
    requires StoresOnly(n, ok) && CarriesOnly(m, ok)
    ensures StoresOnly(n.After(m), ok)
  {
    hide Decode;
  }

  lemma KeysEmitted(n: Node, m: Msg, x: Msg, ok: Pairs)
    requires StoresOnly(n, ok) && x in n.Emits(m)
    ensures CarriesOnly(x, ok)
  {
    hide Encode, Decode, Node.Emits;
    n.Explained(m, x);
    if x.PutKey? {
      Base64RoundTrip(STD, STD, n.keys[x.id].key);
    }
  }

  lemma LoginKeys(n: Node, r: Request, now: int, verify: Verifier, ok: Pairs)
    requires StoresOnly(n, ok)
    requires forall key | n.Judge(r, now, verify) == ByRegistration(key) :: (r.agentID, key) in ok
    ensures StoresOnly(n.WithLogin(r, now, verify), ok)
    ensures n.Judge(r, now, verify).ByRegistration? ==> CarriesOnly(PutKey("", r.agentID, r.publicKey, n.Token()), ok)
  {
    hide Decode, Atoi, Fresh, Proves;
  }

  lemma {:induction false} KeysStep(s: State, e: Event, t: State, ok: Pairs)
    requires KeysFrom(s, ok) && Step(s, e) == Some(t)
    requires forall id, key | RegistersNow(s, e, id, key) :: (id, key) in ok
    ensures KeysFrom(t, ok)
  {
    hide Authenticate, Decode, Proves, Node.Emits, Node.After, Node.Judge, Node.OnLogin, Node.WithLogin, Node.OnPost,
         Node.OnDelete, Node.Registrations;
    if e.Login? {
      forall key | s.hubs[e.h].Judge(e.r, e.now, s.verify) == ByRegistration(key) ensures (e.r.agentID, key) in ok {
        assert RegistersNow(s, e, e.r.agentID, key);
      }
      LoginKeys(s.hubs[e.h], e.r, e.now, s.verify, ok);
    }
    if e.Deliver? && e.m.at in s.hubs {
      KeysAfter(s.hubs[e.m.at], e.m, ok);
    }
    forall x | x in t.pool ensures CarriesOnly(x, ok) {
      if x !in s.pool {
        if e.Deliver? {
          KeysEmitted(s.hubs[e.m.at], e.m, x, ok);
        } else {
          OutsideMessage(s, e, t, x);
        }
      }
    }
  }

  lemma {:induction false} RunKeys(s: State, es: seq<Event>, t: State, ok: Pairs)
    requires KeysFrom(s, ok) && Run(s, es) == Some(t)
    requires forall id, key | Registers(s, es, id, key) :: (id, key) in ok
    ensures KeysFrom(t, ok)
    decreases |es|
  {
    hide KeysFrom;
    if es != [] {
      var u := Step(s, es[0]).value;
      forall id, key | RegistersNow(s, es[0], id, key) ensures (id, key) in ok {
        assert Registers(s, es, id, key);
      }
      KeysStep(s, es[0], u, ok);
      forall id, key | Registers(u, es[1..], id, key) ensures (id, key) in ok {
        assert Registers(s, es, id, key);
      }
      RunKeys(u, es[1..], t, ok);
    }
  }

  /** The moment at which the run registers the key. */
  lemma {:induction false} RegistersAt(s: State, es: seq<Event>, id: string, key: Key) returns (k: nat, u: State)
    requires Registers(s, es, id, key)
    ensures k < |es| && Run(s, es[..k]) == Some(u) && RegistersNow(u, es[k], id, key)
    decreases |es|
  {
    hide Step, RegistersNow;
    if RegistersNow(s, es[0], id, key) {
      k, u := 0, s;
    } else {
      k, u := RegistersAt(Step(s, es[0]).value, es[1..], id, key);
      k := k + 1;
      assert es[..k][0] == es[0] && es[..k][1..] == es[1..][..k - 1];
    }
  }

  lemma RegistrationProves(s: State, e: Event, id: string, key: Key)
    requires RegistersNow(s, e, id, key)
    ensures Proven(s, e, id, key)
  {
    hide Decode, Atoi, Fresh, Proves, RegistrationSecret;
    RegistersExactly(s.hubs[e.h].config, if id in s.hubs[e.h].keys then Some(s.hubs[e.h].keys[id]) else None, e.r,
        e.now, s.verify, key);
  }

  /** Key provenance: after any run from a cluster with an empty pool, a key stored on any hub under any id was
      stored under that id on some hub before, or was registered at some hub in the run by a login that showed
      the secret and proved the key, at a moment at which that hub had no key for the id. */
  lemma {:induction false} KeyProvenance(s: State, es: seq<Event>, t: State, h: Url, id: string)
    requires s.pool == multiset{} && Run(s, es) == Some(t)
    requires h in t.hubs && id in t.hubs[h].keys && t.hubs[h].keys[id].Holds?
    ensures var key := t.hubs[h].keys[id].key;
            || (exists g :: g in s.hubs && id in s.hubs[g].keys && s.hubs[g].keys[id] == Holds(key))
            || (exists k, u :: 0 <= k < |es| && Run(s, es[..k]) == Some(u) && Proven(u, es[k], id, key))
  {
    hide Registers, Run, Proven;
    var ok := iset i: string, key: Key |
        || (exists g :: g in s.hubs && i in s.hubs[g].keys && s.hubs[g].keys[i] == Holds(key))
        || Registers(s, es, i, key)
      :: (i, key);
    RunKeys(s, es, t, ok);
    assert StoresOnly(t.hubs[h], ok);
    var key := t.hubs[h].keys[id].key;
    if Registers(s, es, id, key) {
      var k, u := RegistersAt(s, es, id, key);
      RegistrationProves(u, es[k], id, key);
    }
  }

  // ---- copies to a peer ------------------------------------------------------------------------

  /** SyncAllToPeer sends every key that loads, and the peer then has exactly this key under the same id. */
  lemma SyncedKeyArrives(n: Node, p: Node, id: string)
    requires n.Loadable(id) && id != "" && |n.keys[id].key| == KEY_SIZE && !n.Ignores(p.url)
    requires p.config.keysDir && p.Token() == n.Token() != ""
    ensures var m := n.KeyMessage(p.url, id);
            m in n.Emits(SyncAll(n.url, p.url)) && p.After(m) == p.(keys := p.keys[id := n.keys[id]])
  {
    hide Encode, Decode;
    var key := n.keys[id].key;
    Base64RoundTrip(STD, STD, key);
    EncodeLength(STD, key);
    assert n.KeyMessage(p.url, id) in n.KeyMessages(n.keys.Keys, p.url);
  }

  /** A newly registered key goes to every peer, which then has the key that was proved at the login. */
  lemma RegisteredKeyArrives(n: Node, p: Node, r: Request, now: int, verify: Verifier)
    requires n.Judge(r, now, verify).ByRegistration? && p.url in n.peers && p.url != n.url
    requires p.config.keysDir && p.Token() == n.Token() != ""
    ensures var m := PutKey(p.url, r.agentID, r.publicKey, n.Token());
            && m in n.OnLogin(r, now, verify)
            && p.After(m) == p.(keys := p.keys[r.agentID := n.WithLogin(r, now, verify).keys[r.agentID]])
  {
    hide Decode, Atoi, Fresh, Proves;
    CopyFor(n.peers - {n.url}, PutKey(n.url, r.agentID, r.publicKey, n.Token()), p.url);
  }

  // ---- pinning ---------------------------------------------------------------------------------

  lemma KeyStaysStep(s: State, e: Event, t: State, h: Url, id: string)
    requires Step(s, e) == Some(t) && h in s.hubs && id in s.hubs[h].keys
    ensures h in t.hubs && id in t.hubs[h].keys
    ensures e.Login? && s.hubs[h].config.keysDir ==> t.hubs[h].keys[id] == s.hubs[h].keys[id]
  {
    hide Decode, Node.Emits, Node.OnLogin, Node.OnPost, Node.OnDelete, Node.Registrations, Authenticate, ValidSchedule;
    if e.Login? && e.h == h && e.r.agentID == id && s.hubs[h].config.keysDir {
      StoredKeyDecides(s.hubs[h].config, s.hubs[h].keys[id], e.r, e.now, s.verify);
    }
  }

  /** The message stores another key under the id on hub h. */
  ghost predicate Replaces(s: State, m: Msg, h: Url, id: string)
    requires h in s.hubs && id in s.hubs[h].keys
  {
    && m.PutKey? && m.at == h && m.id == id && id != "" && m.text != "" && m.token == s.hubs[h].Token() != ""
    && Decode(STD, m.text).Some? && Saved(Decode(STD, m.text).value) != s.hubs[h].keys[id]
  }

  /** What a hub with a key directory has stored under an id is replaced exactly by a key message from the cluster
      that carries another key for it; no login, schedule or registration of a peer changes it. */
  lemma {:induction false} KeyChangesExactly(s: State, e: Event, t: State, h: Url, id: string)
    requires Step(s, e) == Some(t) && h in s.hubs && id in s.hubs[h].keys && s.hubs[h].config.keysDir
    ensures h in t.hubs && id in t.hubs[h].keys
    ensures t.hubs[h].keys[id] != s.hubs[h].keys[id] <==> e.Deliver? && Replaces(s, e.m, h, id)
  {
    hide Decode, Saved, Authenticate, ValidSchedule, Node.Emits, Node.OnLogin, Node.OnPost, Node.OnDelete,
         Node.Registrations;
    KeyStaysStep(s, e, t, h, id);
  }

  lemma {:induction false} KeyStays(s: State, es: seq<Event>, t: State, h: Url, id: string)
    requires Run(s, es) == Some(t) && h in s.hubs && id in s.hubs[h].keys
    ensures h in t.hubs && id in t.hubs[h].keys && t.hubs[h].config == s.hubs[h].config && t.verify == s.verify
    decreases |es|
  {
    if es != [] {
      KeyStaysStep(s, es[0], Step(s, es[0]).value, h, id);
      StepGrows(s, es[0], Step(s, es[0]).value);
      KeyStays(Step(s, es[0]).value, es[1..], t, h, id);
    }
  }

  /** Pinning: once a hub has a key for an id, it never again lets that id in by token or registers another key
      for it; whoever it lets in under the id has just signed for the key that the hub holds. */
  lemma PinnedForever(s: State, es: seq<Event>, t: State, h: Url, id: string, r: Request, now: int)
    requires Run(s, es) == Some(t) && h in s.hubs && id in s.hubs[h].keys && s.hubs[h].config.keysDir
    requires r.agentID == id
    ensures h in t.hubs && id in t.hubs[h].keys
    ensures var v := t.hubs[h].Judge(r, now, s.verify);
            v.Accepted() ==> t.hubs[h].keys[id].Holds? && v == BySignature(t.hubs[h].keys[id].key) &&
                             Proves(s.verify, t.hubs[h].keys[id].key, r)
  {
    KeyStays(s, es, t, h, id);
    StoredKeyDecides(t.hubs[h].config, t.hubs[h].keys[id], r, now, s.verify);
  }
}
