/** Gossip cascades end: between timer ticks and outside requests, every order of deliveries reaches an
    empty pool, within a number of steps that can be computed beforehand. */
module Cascade {
  import opened Text
  import opened HubNode
  import opened Cluster
  import opened KeyFile
  import Mesh

  // ---- sums over the pool ----------------------------------------------------------------------

  /** Numbers of keys, schedules and hubs that can occur. */
  datatype Costs = Costs(keys: nat, schedules: nat, hubs: nat) {
    /** A `Learn`: itself, and the `SyncAll` that it starts. */
    function Each(): nat { 3 + keys + schedules }

    /** Steps that a message can cause, itself included, apart from first-time announcements. */
    ghost function Weight(m: Msg): nat {
      match m
      case Register(_, _, _, wantsList) => Each() + (if wantsList then 1 + Each() + hubs * Each() else 0)
      case Answer(_, _) => 1 + Each() + hubs * Each()
      case PeerList(_, _, list) => Each() + |list| * Each()
      case Learn(_, _) => Each()
      case SyncAll(_, _) => 2 + keys + schedules
      case SyncSchedules(_, _) => 1 + schedules
      case _ => 1
    }

    ghost function Sum(ms: multiset<Msg>): nat
      decreases |ms|
    {
      if ms == multiset{} then 0
      else
        var m :| m in ms;
        Weight(m) + Sum(ms - multiset{m})
    }

    lemma SumPick(ms: multiset<Msg>) returns (x: Msg)
      requires ms != multiset{}
      ensures x in ms && Sum(ms) == Weight(x) + Sum(ms - multiset{x})
    {
      hide Weight;
      x :| x in ms && Sum(ms) == Weight(x) + Sum(ms - multiset{x});
    }

    lemma {:induction false} SumRemove(ms: multiset<Msg>, m: Msg)
      requires m in ms
      ensures Sum(ms) == Weight(m) + Sum(ms - multiset{m})
      decreases |ms|
    {
      hide Weight, Sum;
      var x := SumPick(ms);
      if x != m {
        SumRemove(ms - multiset{x}, m);
        SumRemove(ms - multiset{m}, x);
        assert ms - multiset{x} - multiset{m} == ms - multiset{m} - multiset{x};
      }
    }

    lemma {:induction false} SumAdd(a: multiset<Msg>, b: multiset<Msg>)
      ensures Sum(a + b) == Sum(a) + Sum(b)
      decreases |b|
    {
      if b == multiset{} {
        assert a + b == a;
      } else {
        var m :| m in b;
        SumRemove(a + b, m);
        SumRemove(b, m);
        assert a + b - multiset{m} == a + (b - multiset{m});
        SumAdd(a, b - multiset{m});
      }
    }

    lemma SumOne(m: Msg)
      ensures Sum(multiset{m}) == Weight(m)
    {
      SumRemove(multiset{m}, m);
      assert multiset{m} - multiset{m} == multiset{};
    }

    lemma {:induction false} SumUniform(xs: set<Msg>, w: nat)
      requires forall x | x in xs :: Weight(x) == w
      ensures Sum(multiset(xs)) == |xs| * w
    {
      if xs != {} {
        var x :| x in xs;
        SumRemove(multiset(xs), x);
        assert multiset(xs) - multiset{x} == multiset(xs - {x});
        SumUniform(xs - {x}, w);
        assert |xs| * w == (|xs| - 1) * w + w;
      }
    }
  }

  /** What tells apart the messages of one burst. */
  function Tag(m: Msg): string {
    match m
    case Learn(_, u) => u
    case PutKey(_, id, _, _) => id
    case PutSchedule(_, s, _) => s.id
    case _ => ""
  }

  lemma {:induction false} TagsBound(xs: set<Msg>, tags: set<string>)
    requires forall x | x in xs :: Tag(x) in tags
    requires forall x, y | x in xs && y in xs && x != y :: Tag(x) != Tag(y)
    ensures |xs| <= |tags|
  {
    if xs != {} {
      var x :| x in xs;
      TagsBound(xs - {x}, tags - {Tag(x)});
    }
  }

  lemma Times(a: nat, b: nat, c: nat)
    requires a <= b
    ensures a * c <= b * c
  {}

  // ---- the potential ---------------------------------------------------------------------------

  /** All agent ids and schedule ids that hubs and messages mention. */
  datatype Names = Names(keys: set<string>, schedules: set<string>)

  ghost predicate Within(n: Names, hub: Node) {
    hub.keys.Keys <= n.keys && hub.schedules.Keys <= n.schedules && hub.Valid()
  }

  ghost predicate WithinMsg(n: Names, m: Msg) {
    match m
    case PutKey(_, id, _, _) => id in n.keys
    case PutSchedule(_, s, _) => s.id in n.schedules
    case _ => true
  }

  ghost predicate AllWithin(n: Names, s: State) {
    && (forall h | h in s.hubs :: Within(n, s.hubs[h]))
    && (forall m | m in s.pool :: WithinMsg(n, m))
  }

  /** Pairs (hub, peer) that have not met. */
  ghost function Missing(s: State): set<(Url, Url)> {
    set h, u | h in s.hubs && u in s.hubs && u !in s.hubs[h].peers :: (h, u)
  }

  ghost function CostsOf(n: Names, s: State): Costs { Costs(|n.keys|, |n.schedules|, |s.hubs|) }

  ghost function Potential(n: Names, s: State): nat {
    CostsOf(n, s).Sum(s.pool) + |Missing(s)| * CostsOf(n, s).Each()
  }

  // ---- one delivery ----------------------------------------------------------------------------

  lemma AddPeerCost(c: Costs, hub: Node, u: Url)
    ensures c.Sum(hub.OnAddPeer(u)) <= c.Each() - 1 + if hub.Ignores(u) || u in hub.peers then 0 else c.Each()
  {
    if !hub.Ignores(u) {
      var a := SyncAll(hub.url, u);
      var b := Register(u, hub.url, hub.Token(), false);
      c.SumOne(a);
      c.SumOne(b);
      c.SumAdd(multiset{a}, multiset{b});
      c.SumAdd(multiset{a}, multiset{});
    }
  }

  lemma PeerListCost(c: Costs, hub: Node, peer: Url, list: set<Url>)
    ensures c.Sum(hub.OnPeerList(peer, list)) <= c.Each() - 1 + |list| * c.Each()
  {
    hide Costs.Sum;
    var learns := set u | u in list - {hub.url} :: Learn(hub.url, u);
    var e := c.Each();
    c.SumOne(SyncAll(hub.url, peer));
    c.SumUniform(learns, e);
    TagsBound(learns, list);
    Times(|learns|, |list|, e);
    c.SumAdd(multiset{SyncAll(hub.url, peer)}, multiset(learns));
  }

  lemma KeysCost(n: Names, c: Costs, hub: Node, peer: Url)
    requires Within(n, hub) && c.keys == |n.keys|
    ensures c.Sum(hub.KeyMessages(hub.keys.Keys, peer)) <= c.keys
  {
    hide Encode, Costs.Sum;
    var puts := set id | id in hub.keys.Keys && hub.Loadable(id) :: hub.KeyMessage(peer, id);
    c.SumUniform(puts, 1);
    TagsBound(puts, n.keys);
  }

  lemma SyncAllCost(n: Names, c: Costs, hub: Node, peer: Url)
    requires Within(n, hub) && c.keys == |n.keys| && c.schedules == |n.schedules|
    ensures c.Sum(hub.KeyMessages(hub.keys.Keys, peer) + multiset{SyncSchedules(hub.url, peer)})
         <= c.keys + 1 + c.schedules
  {
    hide Node.KeyMessages, Costs.Sum;
    KeysCost(n, c, hub, peer);
    c.SumOne(SyncSchedules(hub.url, peer));
    c.SumAdd(hub.KeyMessages(hub.keys.Keys, peer), multiset{SyncSchedules(hub.url, peer)});
  }

  lemma SyncSchedulesCost(n: Names, c: Costs, hub: Node, peer: Url)
    requires Within(n, hub) && c.schedules == |n.schedules|
    ensures c.Sum(hub.ScheduleMessages(hub.schedules.Keys, peer)) <= c.schedules
  {
    hide Costs.Sum;
    var puts := set id | id in hub.schedules.Keys && id in hub.schedules :: hub.ScheduleMessage(peer, id);
    c.SumUniform(puts, 1);
    TagsBound(puts, n.schedules);
  }

  /** The peer that a message makes known for the first time. */
  ghost function NewPeer(hub: Node, m: Msg): Option<Url> {
    match m
    case Register(_, u, token, _) =>
      if hub.Admits(u, token) && !hub.Ignores(u) && u !in hub.peers then Some(u) else None
    case Learn(_, u) => if !hub.Ignores(u) && u !in hub.peers then Some(u) else None
    case _ => None
  }

  lemma EmitsCost(n: Names, c: Costs, hub: Node, m: Msg, all: set<Url>)
    requires Within(n, hub) && c == Costs(|n.keys|, |n.schedules|, |all|) && hub.peers <= all
    requires m.Register? ==> m.url in all
    ensures c.Sum(hub.Emits(m)) + 1 <= c.Weight(m) + if NewPeer(hub, m).Some? then c.Each() else 0
  {
    hide Encode, Costs.Sum, Node.KeyMessages, Node.ScheduleMessages, Node.OnAddPeer, Node.OnPeerList;
    match m
    case Register(_, u, token, wantsList) =>
      AddPeerCost(c, hub, u);
      c.SumOne(Answer(hub.url, u));
      c.SumAdd(hub.OnAddPeer(u), if wantsList then multiset{Answer(hub.url, u)} else multiset{});
      SumEmpty(c);
    case Answer(_, asker) =>
      c.SumOne(PeerList(asker, hub.url, hub.peers));
      SubsetSize(hub.peers, all);
      Times(|hub.peers|, |all|, c.Each());
    case PeerList(_, peer, list) => PeerListCost(c, hub, peer, list);
    case Learn(_, u) => AddPeerCost(c, hub, u);
    case SyncAll(_, peer) => SyncAllCost(n, c, hub, peer); SumEmpty(c);
    case SyncSchedules(_, peer) => SyncSchedulesCost(n, c, hub, peer);
    case _ => SumEmpty(c);
  }

  lemma SumEmpty(c: Costs)
    ensures c.Sum(multiset{}) == 0
  {}

  lemma {:induction false} SubsetSize(a: set<Url>, b: set<Url>)
    requires a <= b
    ensures |a| <= |b|
  {
    if a != {} {
      var x :| x in a;
      SubsetSize(a - {x}, b - {x});
    }
  }

  lemma PeersAfter(hub: Node, m: Msg)
    ensures hub.After(m).peers == hub.peers + match NewPeer(hub, m) case Some(u) => {u} case None => {}
  {
    hide Decode;
  }

  lemma MissingLess(s: State, t: State, h: Url, peers: set<Url>)
    requires h in s.hubs && t.hubs.Keys == s.hubs.Keys && t.hubs[h].peers == s.hubs[h].peers + peers
    requires forall g | g in s.hubs && g != h :: t.hubs[g].peers == s.hubs[g].peers
    ensures Missing(t) == Missing(s) - set u | u in peers :: (h, u)
  {}

  lemma MissingAfter(s: State, m: Msg, t: State)
    requires Configured(s) && Closed(s) && Step(s, Deliver(m)) == Some(t)
    ensures |Missing(t)| + (if NewPeer(s.hubs[m.at], m).Some? then 1 else 0) == |Missing(s)|
  {
    hide Node.Emits, Node.After, Missing, Costs.Sum;
    assert Cluster.Names(s.hubs.Keys, m);
    PeersAfter(s.hubs[m.at], m);
    match NewPeer(s.hubs[m.at], m)
    case None =>
      MissingLess(s, t, m.at, {});
      assert Missing(t) == Missing(s);
    case Some(u) =>
      MissingLess(s, t, m.at, {u});
      assert (set v | v in {u} :: (m.at, v)) == {(m.at, u)};
      MissingPair(s, m.at, u);
      assert u in s.hubs.Keys && (m.at, u) in Missing(s);
      assert Missing(t) == Missing(s) - {(m.at, u)};
  }

  lemma MissingPair(s: State, h: Url, u: Url)
    ensures (h, u) in Missing(s) <==> h in s.hubs && u in s.hubs && u !in s.hubs[h].peers
  {}

  lemma HubWithin(n: Names, hub: Node, m: Msg)
    requires Within(n, hub) && WithinMsg(n, m)
    ensures Within(n, hub.After(m))
  {
    hide Decode;
  }

  lemma {:induction false} WithinAfter(n: Names, s: State, m: Msg, t: State)
    requires AllWithin(n, s) && Step(s, Deliver(m)) == Some(t)
    ensures AllWithin(n, t)
  {
    hide Node.After, Node.Emits, Within, WithinMsg;
    if m.at in s.hubs {
      HubWithin(n, s.hubs[m.at], m);
      forall x | x in t.pool ensures WithinMsg(n, x) {
        if x !in s.pool {
          EmitsWithin(n, s.hubs[m.at], m, x);
        }
      }
    }
  }

  lemma EmitsWithin(n: Names, hub: Node, m: Msg, x: Msg)
    requires Within(n, hub) && x in hub.Emits(m)
    ensures WithinMsg(n, x)
  {
    hide Node.Emits, Node.KeyMessage;
    hub.Explained(m, x);
  }

  /** The sum over the pool after a delivery. */
  lemma SumAfter(c: Costs, s: State, m: Msg, t: State)
    requires m.at in s.hubs && Step(s, Deliver(m)) == Some(t)
    ensures m in s.pool && c.Sum(t.pool) + c.Weight(m) == c.Sum(s.pool) + c.Sum(s.hubs[m.at].Emits(m))
  {
    hide Node.Emits, Node.After, Costs.Weight, Costs.Sum;
    c.SumRemove(s.pool, m);
    c.SumAdd(s.pool - multiset{m}, s.hubs[m.at].Emits(m));
  }

  /** Each delivery takes something off the potential. */
  lemma {:induction false} PotentialFalls(n: Names, s: State, m: Msg, t: State)
    requires Configured(s) && Closed(s) && AllWithin(n, s) && Step(s, Deliver(m)) == Some(t)
    ensures Configured(t) && Closed(t) && AllWithin(n, t) && Potential(n, t) < Potential(n, s)
  {
    hide Node.Emits, Node.After, Costs.Weight, Costs.Sum, Costs.Each, Missing, NewPeer, Within, WithinMsg;
    ClosedStep(s, Deliver(m), t);
    StepGrows(s, Deliver(m), t);
    WithinAfter(n, s, m, t);
    var c, all := CostsOf(n, s), s.hubs.Keys;
    assert m in s.pool && Cluster.Names(all, m) && |all| == |s.hubs| && |t.hubs| == |t.hubs.Keys| == |all|;
    hide Closed, Configured, Cluster.Names, Grows;
    PotentialStep(n, s, m, t);
  }

  lemma {:induction false} PotentialStep(n: Names, s: State, m: Msg, t: State)
    requires Configured(s) && Closed(s) && AllWithin(n, s) && Step(s, Deliver(m)) == Some(t)
    requires m in s.pool && m.at in s.hubs && |t.hubs| == |s.hubs|
    ensures Potential(n, t) < Potential(n, s)
  {
    hide Node.Emits, Node.After, Costs.Weight, Costs.Sum, Costs.Each, Missing, NewPeer, Within, WithinMsg, Step;
    var c, hub := CostsOf(n, s), s.hubs[m.at];
    assert Cluster.Names(s.hubs.Keys, m) && |s.hubs.Keys| == |s.hubs|;
    StepGrows(s, Deliver(m), t);
    MissingAfter(s, m, t);
    EmitsCost(n, c, hub, m, s.hubs.Keys);
    SumAfter(c, s, m, t);
    if NewPeer(hub, m).Some? {
      OneMore(|Missing(t)|, c.Each());
    } else {
      Times(|Missing(t)|, |Missing(s)|, c.Each());
    }
  }

  lemma OneMore(a: nat, b: nat)
    ensures (a + 1) * b == a * b + b
  {}

  ghost predicate OnlyDeliveries(es: seq<Event>) { forall e | e in es :: e.Deliver? }

  /** No order of deliveries goes on for more than `Potential` steps. */
  lemma {:induction false} CascadeEnds(n: Names, s: State, es: seq<Event>, t: State)
    requires Configured(s) && Closed(s) && AllWithin(n, s)
    requires OnlyDeliveries(es) && Run(s, es) == Some(t)
    ensures |es| + Potential(n, t) <= Potential(n, s)
    decreases |es|
  {
    if es != [] {
      var u := Step(s, es[0]).value;
      assert es[0] in es;
      PotentialFalls(n, s, es[0].m, u);
      CascadeEnds(n, u, es[1..], t);
    }
  }

  /** As long as anything is in flight a delivery is possible; so any order of deliveries can be continued to
      an empty pool, and must be there after `Potential` steps. */
  lemma {:induction false} CascadeDrains(n: Names, s: State) returns (es: seq<Event>, t: State)
    requires Configured(s) && Closed(s) && AllWithin(n, s)
    ensures OnlyDeliveries(es) && Run(s, es) == Some(t) && t.pool == multiset{} && |es| <= Potential(n, s)
    decreases Potential(n, s)
  {
    if s.pool == multiset{} {
      es, t := [], s;
    } else {
      var m :| m in s.pool;
      var u := Step(s, Deliver(m)).value;
      PotentialFalls(n, s, m, u);
      var rest;
      rest, t := CascadeDrains(n, u);
      es := [Deliver(m)] + rest;
      assert es[1..] == rest;
      CascadeEnds(n, s, es, t);
    }
  }

  /** The ids that are around in a state. */
  lemma NamesExist(s: State) returns (n: Names)
    requires forall h | h in s.hubs :: s.hubs[h].Valid()
    ensures AllWithin(n, s)
  {
    n := Names((set h, id | h in s.hubs && id in s.hubs[h].keys :: id) + (set m | m in s.pool && m.PutKey? :: m.id),
               (set h, id | h in s.hubs && id in s.hubs[h].schedules :: id)
               + (set m | m in s.pool && m.PutSchedule? :: m.sched.id));
  }

  /** Termination: from every state of a cluster there is a number of deliveries that no order of them exceeds,
      and some order leads to an empty pool. */
  lemma {:induction false} CascadesTerminate(s: State) returns (bound: nat)
    requires Configured(s) && Closed(s) && forall h | h in s.hubs :: s.hubs[h].Valid()
    ensures forall es, t | OnlyDeliveries(es) && Run(s, es) == Some(t) :: |es| <= bound
    ensures exists es, t :: OnlyDeliveries(es) && Run(s, es) == Some(t) && t.pool == multiset{}
  {
    hide Configured, Closed, AllWithin, Potential, OnlyDeliveries;
    var n := NamesExist(s);
    bound := Potential(n, s);
    forall es, t | OnlyDeliveries(es) && Run(s, es) == Some(t) ensures |es| <= bound {
      CascadeEnds(n, s, es, t);
    }
    var es, t := CascadeDrains(n, s);
  }

  /** Ticks on all hubs of `todo`, one after the other. */
  lemma {:induction false} TickAll(n: Names, s: State, todo: set<Url>) returns (es: seq<Event>, t: State)
    requires Configured(s) && Closed(s) && AllWithin(n, s) && todo <= s.hubs.Keys
    ensures Run(s, es) == Some(t) && Configured(t) && Closed(t) && AllWithin(n, t)
    ensures Mesh.NoLoss(es) && forall h | h in todo :: Tick(h) in es
    decreases todo
  {
    if todo == {} {
      es, t := [], s;
    } else {
      var h :| h in todo;
      var u := Step(s, Tick(h)).value;
      ClosedStep(s, Tick(h), u);
      TickWithin(n, s, h, u);
      var rest;
      rest, t := TickAll(n, u, todo - {h});
      es := [Tick(h)] + rest;
      assert es[1..] == rest;
    }
  }

  lemma TickWithin(n: Names, s: State, h: Url, t: State)
    requires AllWithin(n, s) && Step(s, Tick(h)) == Some(t)
    ensures AllWithin(n, t)
  {
    forall x | x in t.pool ensures WithinMsg(n, x) {
      if x !in s.pool {
        OutsideMessage(s, Tick(h), t, x);
      }
    }
  }

  /** Lossless rounds exist: after the ticks of all hubs any order of deliveries completes one. */
  lemma RoundExists(n: Names, s: State) returns (t: State)
    requires Configured(s) && Closed(s) && AllWithin(n, s)
    ensures Mesh.Round(s, t)
  {
    hide Step, Configured, Closed, AllWithin;
    var es, u := TickAll(n, s, s.hubs.Keys);
    var fs;
    fs, t := CascadeDrains(n, u);
    RunAppend(s, es, fs);
    assert forall h | h in s.hubs :: Tick(h) in es + fs;
    assert Mesh.RoundOf(s, es + fs, t);
  }
}
