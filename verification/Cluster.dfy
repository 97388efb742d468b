/** A cluster of hubs and everything that is in flight between them. An event is one handler or
    goroutine section on one hub; messages are delivered in any order, late, or never. */
module Cluster {
  import opened Text
  import opened KeyFile
  import opened Auth
  import opened HubNode

  /** Hubs by their URLs, and the pool of messages and started goroutines. */
  datatype State = State(verify: Verifier, hubs: map<Url, Node>, pool: multiset<Msg>)

  datatype Event =
    | Tick(h: Url)                              // the 15-second loop runs RegisterWithPeers on h
    | Deliver(m: Msg)                           // a message is handled, or a goroutine runs, on m.at
    | Lose(m: Msg)                              // a request or its reply does not arrive
    | Post(h: Url, s: Schedule)                 // POST /schedules
    | Delete(h: Url, id: string)                // DELETE /schedules
    | Login(h: Url, r: Request, now: int)       // an agent asks h for a connection

  ghost function Step(s: State, e: Event): Option<State> {
    match e
    case Tick(h) =>
      if h !in s.hubs then None else Some(s.(pool := s.pool + s.hubs[h].Registrations()))
    case Deliver(m) =>
      if m !in s.pool then None
      else if m.at !in s.hubs then Some(s.(pool := s.pool - multiset{m}))
      else Some(s.(hubs := s.hubs[m.at := s.hubs[m.at].After(m)],
                   pool := s.pool - multiset{m} + s.hubs[m.at].Emits(m)))
    case Lose(m) =>
      if m !in s.pool || !OnTheWire(m) then None else Some(s.(pool := s.pool - multiset{m}))
    case Post(h, sched) =>
      if h !in s.hubs then None
      else Some(s.(hubs := s.hubs[h := s.hubs[h].Posted(sched)], pool := s.pool + s.hubs[h].OnPost(sched)))
    case Delete(h, id) =>
      if h !in s.hubs || id == "" then None
      else Some(s.(hubs := s.hubs[h := s.hubs[h].WithoutSchedule(id)], pool := s.pool + s.hubs[h].OnDelete(id)))
    case Login(h, r, now) =>
      if h !in s.hubs then None
      else Some(s.(hubs := s.hubs[h := s.hubs[h].WithLogin(r, now, s.verify)],
                   pool := s.pool + s.hubs[h].OnLogin(r, now, s.verify)))
  }

  ghost function Run(s: State, es: seq<Event>): Option<State>
    decreases |es|
  {
    if es == [] then Some(s)
    else match Step(s, es[0]) case None => None case Some(t) => Run(t, es[1..])
  }

  /** Which events can happen: anything at a hub of the cluster, the delivery of anything in flight, and the loss of
      any request or list that is on its way between hubs. */
  lemma PossibleExactly(s: State, e: Event)
    ensures Step(s, e).Some? <==>
            match e
            case Deliver(m) => m in s.pool
            case Lose(m) =>
              m in s.pool && (m.Register? || m.PeerList? || m.PutKey? || m.PutSchedule? || m.DropSchedule?)
            case Delete(h, id) => h in s.hubs && id != ""
            case Tick(h) => h in s.hubs
            case Post(h, _) => h in s.hubs
            case Login(h, _, _) => h in s.hubs
  {
    hide Authenticate, ValidSchedule, Node.After, Node.Emits, Node.OnLogin, Node.OnPost, Node.OnDelete,
         Node.Registrations;
  }

  /** What no event changes, and that peers are never forgotten. */
  ghost predicate Grows(s: State, t: State) {
    && t.hubs.Keys == s.hubs.Keys && t.verify == s.verify
    && forall h | h in s.hubs ::
         t.hubs[h].url == s.hubs[h].url && t.hubs[h].config == s.hubs[h].config && s.hubs[h].peers <= t.hubs[h].peers
  }

  ghost predicate NodeGrows(n: Node, n': Node) { n'.url == n.url && n'.config == n.config && n.peers <= n'.peers }

  lemma AfterGrows(n: Node, m: Msg)
    ensures NodeGrows(n, n.After(m))
  {
    hide Decode;
  }

  lemma {:induction false} StepGrows(s: State, e: Event, t: State)
    requires Step(s, e) == Some(t)
    ensures Grows(s, t)
  {
    hide Authenticate, ValidSchedule, Node.After, Node.Emits, Node.OnLogin, Node.OnPost, Node.OnDelete,
         Node.Registrations;
    if e.Deliver? && e.m.at in s.hubs {
      AfterGrows(s.hubs[e.m.at], e.m);
    }
  }

  lemma {:induction false} RunGrows(s: State, es: seq<Event>, t: State)
    requires Run(s, es) == Some(t)
    ensures Grows(s, t)
    decreases |es|
  {
    if es != [] {
      StepGrows(s, es[0], Step(s, es[0]).value);
      RunGrows(Step(s, es[0]).value, es[1..], t);
    }
  }

  /** Every hub answers under its own non-empty URL and they share one non-empty token. */
  ghost predicate Configured(s: State) {
    && (forall h | h in s.hubs :: s.hubs[h].url == h && h != "")
    && (forall h | h in s.hubs :: s.hubs[h].Token() != "")
    && (forall h, g | h in s.hubs && g in s.hubs :: s.hubs[h].Token() == s.hubs[g].Token())
  }

  /** Only URLs in `all` are mentioned. */
  ghost predicate Names(all: set<Url>, m: Msg) {
    && m.at in all
    && match m
       case Register(_, u, _, _) => u in all
       case Answer(_, u) => u in all
       case PeerList(_, u, list) => u in all && list <= all
       case Learn(_, u) => u in all
       case SyncAll(_, u) => u in all
       case SyncSchedules(_, u) => u in all
       case _ => true
  }

  /** Only hubs of the cluster are mentioned. */
  ghost predicate Closed(s: State) {
    && (forall h | h in s.hubs :: s.hubs[h].peers <= s.hubs.Keys)
    && (forall m | m in s.pool :: Names(s.hubs.Keys, m))
  }

  lemma InCopies(peers: set<Url>, m: Msg, x: Msg)
    requires x in Copies(peers, m)
    ensures x.at in peers && x == To(m, x.at)
  {
    var p :| p in peers && x == To(m, p);
  }

  /** What an event other than a delivery puts into the pool: copies of one message to peers of one hub. */
  lemma {:induction false} OutsideMessage(s: State, e: Event, t: State, x: Msg)
    requires Step(s, e) == Some(t) && !e.Deliver? && x in t.pool && x !in s.pool
    ensures !e.Lose? && e.h in s.hubs && x.at in s.hubs[e.h].peers
    ensures match e
            case Tick(h) => x == Register(x.at, s.hubs[h].url, s.hubs[h].Token(), true)
            case Post(h, sched) => ValidSchedule(sched) && x == PutSchedule(x.at, sched, s.hubs[h].Token())
            case Delete(h, id) => x == DropSchedule(x.at, id, s.hubs[h].Token())
            case Login(h, r, now) =>
              s.hubs[h].Judge(r, now, s.verify).ByRegistration? &&
                  x == PutKey(x.at, r.agentID, r.publicKey, s.hubs[h].Token())
            case _ => false
  {
    hide Authenticate, Node.Emits, Node.After, Copies, ValidSchedule;
    match e
    case Tick(h) =>
      InCopies(s.hubs[h].peers - {s.hubs[h].url}, Register(s.hubs[h].url, s.hubs[h].url, s.hubs[h].Token(), true), x);
    case Post(h, sched) =>
      InCopies(s.hubs[h].peers - {s.hubs[h].url}, PutSchedule(s.hubs[h].url, sched, s.hubs[h].Token()), x);
    case Delete(h, id) =>
      InCopies(s.hubs[h].peers - {s.hubs[h].url}, DropSchedule(s.hubs[h].url, id, s.hubs[h].Token()), x);
    case Login(h, r, now) =>
      InCopies(s.hubs[h].peers - {s.hubs[h].url}, PutKey(s.hubs[h].url, r.agentID, r.publicKey, s.hubs[h].Token()), x);
    case Lose(_) =>
  }

  lemma EmitsNames(n: Node, all: set<Url>, m: Msg, x: Msg)
    requires n.url == m.at && n.peers <= all && Names(all, m) && x in n.Emits(m)
    ensures Names(all, x)
  {
    hide Node.Emits, Node.Loadable, Node.KeyMessage;
    n.Explained(m, x);
  }

  lemma {:induction false} ClosedDeliver(s: State, m: Msg, t: State)
    requires Configured(s) && Closed(s) && Step(s, Deliver(m)) == Some(t)
    ensures Closed(t)
  {
    hide Node.Emits;
    var all := s.hubs.Keys;
    assert Names(all, m);
    forall x | x in t.pool ensures Names(all, x) {
      if x !in s.pool {
        EmitsNames(s.hubs[m.at], all, m, x);
      }
    }
    assert t.hubs.Keys == all;
  }

  lemma {:induction false} ClosedStep(s: State, e: Event, t: State)
    requires Configured(s) && Closed(s) && Step(s, e) == Some(t)
    ensures Configured(t) && Closed(t)
  {
    hide Authenticate, Node.Emits, Node.After, Copies, ValidSchedule, Closed;
    StepGrows(s, e, t);
    if e.Deliver? {
      ClosedDeliver(s, e.m, t);
    } else {
      ClosedOther(s, e, t);
    }
  }

  lemma {:induction false} ClosedOther(s: State, e: Event, t: State)
    requires Configured(s) && Closed(s) && Step(s, e) == Some(t) && !e.Deliver?
    ensures Closed(t)
  {
    hide Authenticate, Node.Emits, Node.After, Copies, ValidSchedule, Names;
    assert t.hubs.Keys == s.hubs.Keys;
    forall x | x in t.pool && x !in s.pool ensures Names(s.hubs.Keys, x) {
      NewNames(s, e, t, x);
    }
  }

  lemma {:induction false} NewNames(s: State, e: Event, t: State, x: Msg)
    requires Configured(s) && Closed(s) && Step(s, e) == Some(t) && !e.Deliver? && x in t.pool && x !in s.pool
    ensures Names(s.hubs.Keys, x)
  {
    hide Authenticate, Step;
    OutsideMessage(s, e, t, x);
  }

  lemma {:induction false} RunAppend(s: State, es: seq<Event>, fs: seq<Event>)
    requires Run(s, es).Some?
    ensures Run(s, es + fs) == Run(Run(s, es).value, fs)
    decreases |es|
  {
    if es == [] {
      assert es + fs == fs;
    } else {
      assert (es + fs)[1..] == es[1..] + fs;
      RunAppend(Step(s, es[0]).value, es[1..], fs);
    }
  }

  // ---- the reply to a registration -------------------------------------------------------------

  /** AddPeer for each URL of a list in turn, as the loop of RegisterWithPeers calls it. */
  function Learning(h: Url, us: seq<Url>): seq<Event> {
    if us == [] then []
    else
      var u := us[|us| - 1];
      Learning(h, us[..|us| - 1]) + if u == h then [] else [Deliver(Learn(h, u))]
  }

  function Elements(us: seq<Url>): set<Url> { set u | u in us }

  /** The calls of AddPeer that are still to come. */
  ghost function ToLearn(h: Url, list: set<Url>): multiset<Msg> { multiset(set u | u in list - {h} :: Learn(h, u)) }

  lemma ToLearnLess(h: Url, list: set<Url>, u: Url)
    requires u in list
    ensures ToLearn(h, list) == ToLearn(h, list - {u}) + if u == h then multiset{} else multiset{Learn(h, u)}
  {
    if u == h {
      assert list - {u} - {h} == list - {h};
    } else {
      var rest := set v | v in list - {u} - {h} :: Learn(h, v);
      assert (set v | v in list - {h} :: Learn(h, v)) == rest + {Learn(h, u)};
      AddToSet(rest, Learn(h, u));
    }
  }

  lemma LearnOne(s: State, h: Url, u: Url, rest: multiset<Msg>)
    requires h in s.hubs && s.hubs[h].url == h && s.pool == rest + multiset{Learn(h, u)}
    ensures var n := s.hubs[h];
            Run(s, [Deliver(Learn(h, u))]) ==
                Some(s.(hubs := s.hubs[h := n.WithPeer(u)], pool := rest + n.OnAddPeer(u)))
  {
    hide Node.WithPeer, Node.OnAddPeer;
    var m := Learn(h, u);
    assert s.pool - multiset{m} == rest;
    assert [Deliver(m)][1..] == [];
  }

  /** What h has learnt of the list so far, and what is still to come. */
  ghost function Midway(s: State, h: Url, list: set<Url>, us: seq<Url>, rest: multiset<Msg>): State
    requires h in s.hubs
  {
    s.(hubs := s.hubs[h := s.hubs[h].Learnt(us)],
       pool := rest + ToLearn(h, list - Elements(us)) + s.hubs[h].LearnEmits(us))
  }

  lemma MidwayStart(s: State, h: Url, list: set<Url>, rest: multiset<Msg>)
    requires h in s.hubs && s.pool == rest + ToLearn(h, list)
    ensures Midway(s, h, list, [], rest) == s
  {
    hide ToLearn;
    var none: seq<Url> := [];
    assert Elements(none) == {} && list - {} == list;
    assert s.hubs[h := s.hubs[h]] == s.hubs;
  }

  lemma MidwayNext(s: State, h: Url, list: set<Url>, us: seq<Url>, u: Url, rest: multiset<Msg>)
    requires h in s.hubs && s.hubs[h].url == h && u in list && u !in us
    ensures Run(Midway(s, h, list, us, rest), if u == h then [] else [Deliver(Learn(h, u))])
         == Some(Midway(s, h, list, us + [u], rest))
  {
    hide ToLearn, Node.WithPeer, Node.OnAddPeer, Step, Node.Learnt, Node.LearnEmits;
    var n, more, left := s.hubs[h], us + [u], list - Elements(us);
    n.LearnNext(more, |us|);
    assert more[..|us|] == us && more[..|us| + 1] == more;
    assert left - {u} == list - Elements(more);
    ToLearnLess(h, left, u);
    var t := Midway(s, h, list, us, rest);
    if u == h {
      n.Learnt(us).IgnoresItself();
      assert t == Midway(s, h, list, more, rest);
    } else {
      var others := rest + ToLearn(h, left - {u}) + n.LearnEmits(us);
      var next := n.Learnt(more);
      LearnOne(t, h, u, others);
      assert t.hubs[h := next] == s.hubs[h := next];
      assert others + n.Learnt(us).OnAddPeer(u) == rest + ToLearn(h, left - {u}) + n.LearnEmits(more);
    }
  }

  /** Going through a list is the same as learning its URLs in this order while nothing else happens. */
  lemma {:induction false} LearningRun(s: State, h: Url, list: set<Url>, us: seq<Url>, rest: multiset<Msg>)
    requires h in s.hubs && s.hubs[h].url == h && s.pool == rest + ToLearn(h, list)
    requires (forall u | u in us :: u in list) && (forall i, j | 0 <= i < j < |us| :: us[i] != us[j])
    ensures Run(s, Learning(h, us)) == Some(Midway(s, h, list, us, rest))
    decreases |us|
  {
    hide ToLearn, Step, Midway;
    if us == [] {
      MidwayStart(s, h, list, rest);
    } else {
      var front, u := us[..|us| - 1], us[|us| - 1];
      assert us == front + [u] && u !in front;
      LearningRun(s, h, list, front, rest);
      MidwayNext(s, h, list, front, u, rest);
      RunAppend(s, Learning(h, front), if u == h then [] else [Deliver(Learn(h, u))]);
    }
  }

  lemma MidwayEnd(s: State, h: Url, us: seq<Url>, rest: multiset<Msg>)
    requires h in s.hubs
    ensures Midway(s, h, Elements(us), us, rest)
         == s.(hubs := s.hubs[h := s.hubs[h].Learnt(us)], pool := rest + s.hubs[h].LearnEmits(us))
  {
    hide ToLearn, Node.Learnt, Node.LearnEmits;
    var list := Elements(us);
    assert list - list == {};
    NothingToLearn(h);
  }

  /** The reply to a registration: what the cluster makes of it is what the loop over the list does, the full sync
      and AddPeer for every URL on it in turn. */
  lemma {:induction false} ReplyRun(s: State, h: Url, peer: Url, us: seq<Url>, rest: multiset<Msg>)
    requires h in s.hubs && s.hubs[h].url == h && (forall i, j | 0 <= i < j < |us| :: us[i] != us[j])
    requires s.pool == rest + multiset{PeerList(h, peer, Elements(us))}
    ensures Run(s, [Deliver(PeerList(h, peer, Elements(us)))] + Learning(h, us)) ==
            Some(s.(hubs := s.hubs[h := s.hubs[h].Learnt(us)],
                    pool := rest + multiset{SyncAll(h, peer)} + s.hubs[h].LearnEmits(us)))
  {
    hide ToLearn, Midway, Learning, Node.Learnt, Node.LearnEmits, Step;
    var list := Elements(us);
    var m := PeerList(h, peer, list);
    var begun := rest + multiset{SyncAll(h, peer)};
    var t := s.(pool := begun + ToLearn(h, list));
    ReplyStep(s, h, peer, list, rest);
    assert ([Deliver(m)] + Learning(h, us))[1..] == Learning(h, us);
    LearningRun(t, h, list, us, begun);
    MidwayEnd(t, h, us, begun);
  }

  lemma NothingToLearn(h: Url)
    ensures ToLearn(h, {}) == multiset{}
  {}

  lemma ReplyStep(s: State, h: Url, peer: Url, list: set<Url>, rest: multiset<Msg>)
    requires h in s.hubs && s.hubs[h].url == h && s.pool == rest + multiset{PeerList(h, peer, list)}
    ensures Step(s, Deliver(PeerList(h, peer, list))) ==
            Some(s.(pool := rest + multiset{SyncAll(h, peer)} + ToLearn(h, list)))
  {
    var m := PeerList(h, peer, list);
    assert s.pool - multiset{m} == rest;
    assert s.hubs[h := s.hubs[h]] == s.hubs;
    assert rest + (multiset{SyncAll(h, peer)} + ToLearn(h, list)) ==
        rest + multiset{SyncAll(h, peer)} + ToLearn(h, list);
  }
}
