/** As long as no agent id gets two different keys, a lossless round over a full mesh of hubs with key
    directories makes all key stores equal. */
module KeyConvergence {
  import opened Text
  import opened KeyFile
  import opened Auth
  import opened HubNode
  import opened Cluster
  import opened Mesh
  import opened SyncChain
  import opened Keys

  // ---- one key for each id ---------------------------------------------------------------------

  ghost predicate HasKey(s: State, h: Url, id: string) { h in s.hubs && id in s.hubs[h].keys }

  ghost predicate NodeKeyed(n: Node, all: map<string, Key>) {
    n.config.keysDir && forall id | id in n.keys :: id in all && n.keys[id] == Holds(all[id])
  }

  /** The key that a message carries is the one for its id, and some hub has it. */
  ghost predicate MsgKeyed(s: State, all: map<string, Key>, m: Msg) {
    m.PutKey? ==> m.id in all && Decode(STD, m.text) == Some(all[m.id]) && exists g :: HasKey(s, g, m.id)
  }

  ghost predicate KeyMap(all: map<string, Key>) { forall id | id in all :: id != "" && |all[id]| == KEY_SIZE }

  /** Every hub has a part of `all`, every key in flight is one that a hub has. */
  ghost predicate Keyed(s: State, all: map<string, Key>) {
    && KeyMap(all)
    && (forall h | h in s.hubs :: NodeKeyed(s.hubs[h], all))
    && (forall m | m in s.pool :: MsgKeyed(s, all, m))
  }

  ghost predicate KeyNow(s: State, e: Event, all: map<string, Key>) {
    forall id, key | RegistersNow(s, e, id, key) :: id in all && all[id] == key
  }

  /** What the run registers under an id is always the same key. */
  ghost predicate OneKeyEach(s: State, es: seq<Event>, all: map<string, Key>) {
    forall id, key | Registers(s, es, id, key) :: id in all && all[id] == key
  }

  ghost predicate KeysStay(s: State, t: State) { forall h, id | HasKey(s, h, id) :: HasKey(t, h, id) }

  lemma KeyedAfter(n: Node, all: map<string, Key>, m: Msg)
    requires NodeKeyed(n, all) && KeyMap(all)
    requires m.PutKey? ==> m.id in all && Decode(STD, m.text) == Some(all[m.id])
    ensures NodeKeyed(n.After(m), all) && n.keys.Keys <= n.After(m).keys.Keys
  {
    hide Decode;
  }

  lemma KeyedLogin(n: Node, all: map<string, Key>, r: Request, now: int, verify: Verifier)
    requires NodeKeyed(n, all)
    requires forall key | n.Judge(r, now, verify) == ByRegistration(key) :: r.agentID in all && all[r.agentID] == key
    ensures NodeKeyed(n.WithLogin(r, now, verify), all) && n.keys.Keys <= n.WithLogin(r, now, verify).keys.Keys
  {
    hide Authenticate;
  }

  lemma {:induction false} KeyedHubs(s: State, e: Event, t: State, all: map<string, Key>)
    requires Keyed(s, all) && KeyNow(s, e, all) && Step(s, e) == Some(t) && Grows(s, t)
    ensures forall h | h in t.hubs :: NodeKeyed(t.hubs[h], all)
    ensures KeysStay(s, t)
  {
    hide Authenticate, Node.Judge, Node.WithLogin, Node.Emits, Node.After, Node.OnLogin, Node.OnPost, Node.OnDelete,
         Node.Registrations;
    if e.Deliver? && e.m.at in s.hubs {
      assert MsgKeyed(s, all, e.m);
      KeyedAfter(s.hubs[e.m.at], all, e.m);
    } else if e.Login? {
      var n := s.hubs[e.h];
      forall key | n.Judge(e.r, e.now, s.verify) == ByRegistration(key)
        ensures e.r.agentID in all && all[e.r.agentID] == key
      {
        assert RegistersNow(s, e, e.r.agentID, key);
      }
      KeyedLogin(n, all, e.r, e.now, s.verify);
    }
  }

  lemma EmitsKeyed(n: Node, m: Msg, x: Msg, all: map<string, Key>)
    requires NodeKeyed(n, all) && x in n.Emits(m) && x.PutKey?
    ensures x.id in n.keys && x.id in all && Decode(STD, x.text) == Some(all[x.id])
  {
    hide Encode, Decode, Node.Emits;
    n.Explained(m, x);
    Base64RoundTrip(STD, STD, n.keys[x.id].key);
  }

  lemma LoginStores(s: State, e: Event, t: State)
    requires Step(s, e) == Some(t) && e.Login? && s.hubs[e.h].Judge(e.r, e.now, s.verify).ByRegistration?
    ensures HasKey(t, e.h, e.r.agentID)
    ensures RegistersNow(s, e, e.r.agentID, s.hubs[e.h].Judge(e.r, e.now, s.verify).key)
  {
    hide Node.OnLogin, Authenticate;
  }

  lemma RegisteredDecodes(s: State, e: Event, id: string, key: Key)
    requires RegistersNow(s, e, id, key)
    ensures Decode(STD, e.r.publicKey) == Some(key) && |key| == KEY_SIZE
  {
    hide Decode;
    RegistrationProves(s, e, id, key);
  }

  lemma {:induction false} OutsideKeyed(s: State, e: Event, t: State, all: map<string, Key>, x: Msg)
    requires KeyNow(s, e, all) && Step(s, e) == Some(t)
    requires !e.Deliver? && x in t.pool && x !in s.pool
    ensures MsgKeyed(t, all, x)
  {
    hide Step, Decode, Node.Judge, RegistersNow;
    OutsideMessage(s, e, t, x);
    if e.Login? {
      var key := s.hubs[e.h].Judge(e.r, e.now, s.verify).key;
      LoginStores(s, e, t);
      RegisteredDecodes(s, e, e.r.agentID, key);
    }
  }

  lemma {:induction false} KeyedStep(s: State, e: Event, t: State, all: map<string, Key>)
    requires Keyed(s, all) && KeyNow(s, e, all) && Step(s, e) == Some(t)
    ensures Keyed(t, all) && Grows(s, t) && KeysStay(s, t)
  {
    hide Decode, Node.Emits, Node.After, Node.OnLogin, Node.OnPost, Node.OnDelete, Node.Registrations,
         Node.WithLogin, NodeKeyed, HasKey, KeyNow;
    StepGrows(s, e, t);
    KeyedHubs(s, e, t, all);
    forall x | x in t.pool ensures MsgKeyed(t, all, x) {
      if x in s.pool {
        assert MsgKeyed(s, all, x);
      } else if e.Deliver? {
        OwnKey(s, t, e.m, x, all);
      } else {
        OutsideKeyed(s, e, t, all, x);
      }
    }
  }

  lemma OwnKey(s: State, t: State, m: Msg, x: Msg, all: map<string, Key>)
    requires m.at in s.hubs && NodeKeyed(s.hubs[m.at], all) && KeysStay(s, t) && x in s.hubs[m.at].Emits(m)
    ensures MsgKeyed(t, all, x)
  {
    hide Decode, Node.Emits;
    if x.PutKey? {
      EmitsKeyed(s.hubs[m.at], m, x, all);
      assert HasKey(s, m.at, x.id);
    }
  }

  lemma {:induction false} RunKeyed(s: State, es: seq<Event>, t: State, all: map<string, Key>)
    requires Keyed(s, all) && OneKeyEach(s, es, all) && Run(s, es) == Some(t)
    ensures Keyed(t, all) && Grows(s, t) && KeysStay(s, t)
    decreases |es|
  {
    hide Keyed, Step;
    if es != [] {
      var u := Step(s, es[0]).value;
      KeyNext(s, es, all);
      KeyedStep(s, es[0], u, all);
      RunKeyed(u, es[1..], t, all);
    }
  }

  lemma KeyNext(s: State, es: seq<Event>, all: map<string, Key>)
    requires es != [] && OneKeyEach(s, es, all) && Step(s, es[0]).Some?
    ensures KeyNow(s, es[0], all) && OneKeyEach(Step(s, es[0]).value, es[1..], all)
  {
    hide Step, RegistersNow;
    forall id, key | RegistersNow(s, es[0], id, key) ensures id in all && all[id] == key {
      assert Registers(s, es, id, key);
    }
    forall id, key | Registers(Step(s, es[0]).value, es[1..], id, key) ensures id in all && all[id] == key {
      assert Registers(s, es, id, key);
    }
  }

  /** As long as no id is registered with two keys, the key that a hub stored first is there for ever. */
  lemma {:induction false} FirstKeyStays(s: State, es: seq<Event>, t: State, all: map<string, Key>, h: Url, id: string)
    requires Keyed(s, all) && OneKeyEach(s, es, all) && Run(s, es) == Some(t) && HasKey(s, h, id)
    ensures HasKey(t, h, id) && t.hubs[h].keys[id] == s.hubs[h].keys[id]
  {
    hide Keyed, OneKeyEach, Run;
    RunKeyed(s, es, t, all);
    KeyedHolds(s, all, h, id);
    assert HasKey(t, h, id);
    KeyedHolds(t, all, h, id);
  }

  // ---- spreading -------------------------------------------------------------------------------

  /** The key for the id is in a message to p. */
  ghost predicate Carried(s: State, all: map<string, Key>, g: Url, p: Url, id: string)
    requires g in s.hubs && id in all
  {
    exists text :: PutKey(p, id, text, s.hubs[g].Token()) in s.pool && Decode(STD, text) == Some(all[id])
  }

  ghost predicate KeySpreading(s: State, es: seq<Event>, all: map<string, Key>, g: Url, p: Url, id: string)
    requires g in s.hubs && p in s.hubs && id in all
  {
    Syncing(s, es, g, p) || Carried(s, all, g, p, id) || id in s.hubs[p].keys
  }

  lemma SyncSends(s: State, t: State, all: map<string, Key>, g: Url, p: Url, id: string)
    requires Configured(s) && Keyed(s, all) && Step(s, Deliver(SyncAll(g, p))) == Some(t) && Grows(s, t)
    requires g in s.hubs && p in s.hubs && g != p && HasKey(s, g, id) && id in all
    ensures Carried(t, all, g, p, id)
  {
    hide Encode, Decode, Step, Keyed, Grows;
    var n := s.hubs[g];
    KeyedAt(s, t, all, g);
    assert n.KeyMessage(p, id) in n.KeyMessages(n.keys.Keys, p);
    DeliverEmits(s, SyncAll(g, p), t, n.KeyMessage(p, id));
    Base64RoundTrip(STD, STD, all[id]);
  }

  lemma KeyedAt(s: State, t: State, all: map<string, Key>, g: Url)
    requires Keyed(s, all) && Grows(s, t) && g in s.hubs
    ensures g in t.hubs && NodeKeyed(s.hubs[g], all) && t.hubs[g].Token() == s.hubs[g].Token()
  {}

  lemma CopyArrives(s: State, t: State, all: map<string, Key>, g: Url, p: Url, id: string, text: string)
    requires Configured(s) && Keyed(s, all) && g in s.hubs && p in s.hubs && id in all
    requires Decode(STD, text) == Some(all[id])
    requires Step(s, Deliver(PutKey(p, id, text, s.hubs[g].Token()))) == Some(t)
    ensures HasKey(t, p, id)
  {
    hide Step;
    assert NodeKeyed(s.hubs[p], all);
    if text == "" {
      assert Decode(STD, text) == Some([]);
    }
    DeliverAfter(s, PutKey(p, id, text, s.hubs[g].Token()), t);
  }

  lemma {:induction false} KeySpreadingStep(
      s: State, e: Event, t: State, es: seq<Event>, all: map<string, Key>, g: Url, p: Url, id: string)
    requires Configured(s) && Keyed(s, all) && Step(s, e) == Some(t) && !e.Lose? && Grows(s, t) && KeysStay(s, t)
    requires g in s.hubs && p in s.hubs && g != p && p in s.hubs[g].peers && HasKey(s, g, id) && id in all
    requires KeySpreading(s, [e] + es, all, g, p, id)
    ensures KeySpreading(t, es, all, g, p, id)
  {
    hide Step, Syncing, Decode, Keyed, Configured;
    if Syncing(s, [e] + es, g, p) {
      SyncingStep(s, e, t, es, g, p);
      if !Syncing(t, es, g, p) {
        SyncSends(s, t, all, g, p, id);
      }
    } else if id in s.hubs[p].keys {
      assert HasKey(s, p, id) && HasKey(t, p, id);
    } else {
      var text :| PutKey(p, id, text, s.hubs[g].Token()) in s.pool && Decode(STD, text) == Some(all[id]);
      var m := PutKey(p, id, text, s.hubs[g].Token());
      if e == Deliver(m) {
        CopyArrives(s, t, all, g, p, id, text);
      } else {
        Stays(s, e, t, m);
      }
    }
  }

  /** Some hub has the key and passes it on to every other. */
  ghost predicate KeyHome(s: State, es: seq<Event>, all: map<string, Key>, id: string)
    requires id in all
  {
    exists g :: HasKey(s, g, id) && forall p | p in s.hubs && p != g :: KeySpreading(s, es, all, g, p, id)
  }

  ghost predicate AllKeysHome(s: State, es: seq<Event>, all: map<string, Key>) {
    forall h, id | HasKey(s, h, id) :: id in all && KeyHome(s, es, all, id)
  }

  lemma {:induction false} KeyHomeStep(s: State, e: Event, t: State, es: seq<Event>, all: map<string, Key>, id: string)
    requires Configured(s) && FullMesh(s) && Keyed(s, all) && Step(s, e) == Some(t) && !e.Lose? && Grows(s, t)
    requires KeysStay(s, t)
    requires id in all && KeyHome(s, [e] + es, all, id)
    ensures KeyHome(t, es, all, id)
  {
    hide Step, KeySpreading, Keyed, Configured;
    var g :| HasKey(s, g, id) && forall p | p in s.hubs && p != g :: KeySpreading(s, [e] + es, all, g, p, id);
    forall p | p in t.hubs && p != g ensures KeySpreading(t, es, all, g, p, id) {
      assert Knows(s, g, p);
      KeySpreadingStep(s, e, t, es, all, g, p, id);
    }
    assert HasKey(t, g, id);
  }

  /** A key that h did not have before is registered by a login at h or comes from a hub that has it. */
  lemma {:induction false} NewKeyAtHub(s: State, e: Event, t: State, all: map<string, Key>, h: Url, id: string)
    requires Keyed(s, all) && Step(s, e) == Some(t) && HasKey(t, h, id) && !HasKey(s, h, id)
    ensures (e.Login? && e.h == h && e.r.agentID == id && s.hubs[h].Judge(e.r, e.now, s.verify).ByRegistration?)
            || exists g :: HasKey(s, g, id)
  {
    hide Authenticate, Decode, ValidSchedule, Node.Judge, Node.Emits, Node.OnLogin, Node.OnPost, Node.OnDelete,
         Node.Registrations;
    if e.Deliver? {
      assert MsgKeyed(s, all, e.m);
    }
  }

  lemma LoginSends(s: State, e: Event, t: State, p: Url)
    requires Step(s, e) == Some(t) && e.Login? && s.hubs[e.h].Judge(e.r, e.now, s.verify).ByRegistration?
    requires p in s.hubs[e.h].peers && p != s.hubs[e.h].url
    ensures PutKey(p, e.r.agentID, e.r.publicKey, s.hubs[e.h].Token()) in t.pool
  {
    hide Authenticate, Copies, Node.WithLogin, Node.Judge;
    var n := s.hubs[e.h];
    CopyFor(n.peers - {n.url}, PutKey(n.url, e.r.agentID, e.r.publicKey, n.Token()), p);
  }

  lemma {:induction false} RegisteredHome(s: State, e: Event, t: State, es: seq<Event>, all: map<string, Key>)
    requires Configured(s) && FullMesh(s) && KeyNow(s, e, all) && Step(s, e) == Some(t) && Grows(s, t)
    requires e.Login? && s.hubs[e.h].Judge(e.r, e.now, s.verify).ByRegistration?
    ensures e.r.agentID in all && KeyHome(t, es, all, e.r.agentID)
  {
    hide Step, Decode, Node.Judge, RegistersNow, HasKey;
    var g, id := e.h, e.r.agentID;
    LoginStores(s, e, t);
    assert g in s.hubs by { LoginAt(s, e, t); }
    RegisteredDecodes(s, e, id, all[id]);
    forall p | p in t.hubs && p != g ensures KeySpreading(t, es, all, g, p, id) {
      assert Knows(s, g, p);
      LoginSends(s, e, t, p);
      assert PutKey(p, id, e.r.publicKey, t.hubs[g].Token()) in t.pool;
    }
  }

  lemma LoginAt(s: State, e: Event, t: State)
    requires Step(s, e) == Some(t) && e.Login?
    ensures e.h in s.hubs
  {}

  lemma {:induction false} AllKeysHomeStep(s: State, e: Event, t: State, es: seq<Event>, all: map<string, Key>)
    requires Configured(s) && FullMesh(s) && Keyed(s, all) && KeyNow(s, e, all)
    requires Step(s, e) == Some(t) && !e.Lose? && Grows(s, t) && KeysStay(s, t)
    requires AllKeysHome(s, [e] + es, all)
    ensures AllKeysHome(t, es, all)
  {
    hide Step, KeyHome, FullMesh, Configured, Keyed, HasKey, KeyNow, Node.Judge;
    forall h, id | HasKey(t, h, id) ensures id in all && KeyHome(t, es, all, id) {
      if !HasKey(s, h, id) {
        NewKeyAtHub(s, e, t, all, h, id);
      }
      if g :| HasKey(s, g, id) {
        KeyHomeStep(s, e, t, es, all, id);
      } else {
        RegisteredHome(s, e, t, es, all);
      }
    }
  }

  lemma {:induction false} RunAllKeysHome(s: State, es: seq<Event>, t: State, all: map<string, Key>)
    requires Configured(s) && FullMesh(s) && Keyed(s, all) && OneKeyEach(s, es, all) && NoLoss(es)
    requires Run(s, es) == Some(t) && AllKeysHome(s, es, all)
    ensures AllKeysHome(t, [], all)
    decreases |es|
  {
    hide Step, Keyed, FullMesh, Configured, AllKeysHome, OneKeyEach;
    if es != [] {
      var u := Step(s, es[0]).value;
      assert es[0] in es && es == [es[0]] + es[1..];
      KeyNext(s, es, all);
      KeyedStep(s, es[0], u, all);
      StillFull(s, u);
      AllKeysHomeStep(s, es[0], u, es[1..], all);
      RunAllKeysHome(u, es[1..], t, all);
    }
  }

  lemma KeysHomeFirst(s: State, es: seq<Event>, all: map<string, Key>)
    requires Keyed(s, all) && forall h | h in s.hubs :: Tick(h) in es
    ensures AllKeysHome(s, es, all)
  {
    forall h, id | HasKey(s, h, id) ensures id in all && KeyHome(s, es, all, id) {
      assert NodeKeyed(s.hubs[h], all) && Tick(h) in es;
    }
  }

  /** When nothing is in flight any more, a key that one hub has every hub has. */
  lemma KeysHomeLast(t: State, all: map<string, Key>, h: Url, p: Url, id: string)
    requires Keyed(t, all) && AllKeysHome(t, [], all) && t.pool == multiset{} && HasKey(t, h, id) && p in t.hubs
    ensures HasKey(t, p, id) && id in all && t.hubs[p].keys[id] == Holds(all[id])
  {
    hide Decode;
    assert KeyHome(t, [], all, id);
    var g :| HasKey(t, g, id) && forall q | q in t.hubs && q != g :: KeySpreading(t, [], all, g, q, id);
    assert p != g ==> KeySpreading(t, [], all, g, p, id);
    assert NodeKeyed(t.hubs[p], all);
  }

  /** Key convergence: from a full mesh one lossless round, in which further agents may register, gives all hubs the
      same keys, and none that a hub had is missing or replaced. */
  lemma {:induction false} KeysConverge(s: State, es: seq<Event>, t: State, all: map<string, Key>)
    requires Configured(s) && FullMesh(s) && Keyed(s, all) && RoundOf(s, es, t) && OneKeyEach(s, es, all)
    ensures t.hubs.Keys == s.hubs.Keys
    ensures forall h, p | h in t.hubs && p in t.hubs :: t.hubs[h].keys == t.hubs[p].keys
    ensures forall h, p, id | HasKey(s, h, id) && p in t.hubs ::
            HasKey(t, p, id) && t.hubs[p].keys[id] == s.hubs[h].keys[id]
  {
    hide AllKeysHome, OneKeyEach, FullMesh, Configured, Run, NoLoss, Keyed;
    KeysHomeFirst(s, es, all);
    RunKeyed(s, es, t, all);
    RunAllKeysHome(s, es, t, all);
    forall h, p, id | HasKey(t, h, id) && p in t.hubs
      ensures HasKey(t, p, id) && id in all && t.hubs[p].keys[id] == Holds(all[id])
    {
      KeysHomeLast(t, all, h, p, id);
    }
    forall h, p | h in t.hubs && p in t.hubs ensures t.hubs[h].keys == t.hubs[p].keys {
      SameKeys(t, all, h, p);
    }
    forall h, p, id | HasKey(s, h, id) && p in t.hubs
      ensures HasKey(t, p, id) && t.hubs[p].keys[id] == s.hubs[h].keys[id]
    {
      assert HasKey(t, h, id);
      KeyedHolds(s, all, h, id);
    }
  }

  lemma KeyedHolds(s: State, all: map<string, Key>, h: Url, id: string)
    requires Keyed(s, all) && HasKey(s, h, id)
    ensures id in all && s.hubs[h].keys[id] == Holds(all[id])
  {
    assert NodeKeyed(s.hubs[h], all);
  }

  lemma SameKeys(t: State, all: map<string, Key>, h: Url, p: Url)
    requires h in t.hubs && p in t.hubs
    requires forall g, q, id | HasKey(t, g, id) && q in t.hubs ::
            HasKey(t, q, id) && id in all && t.hubs[q].keys[id] == Holds(all[id])
    ensures t.hubs[h].keys == t.hubs[p].keys
  {
    forall id ensures id in t.hubs[h].keys <==> id in t.hubs[p].keys {
      assert HasKey(t, h, id) <==> id in t.hubs[h].keys;
      assert HasKey(t, p, id) <==> id in t.hubs[p].keys;
    }
    forall id | id in t.hubs[h].keys ensures t.hubs[h].keys[id] == t.hubs[p].keys[id] {
      assert HasKey(t, h, id);
    }
  }
}
