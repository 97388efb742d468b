/** Requests from outside the cluster: anybody may send the internal endpoints anything, but without the token of
    the hub it has no effect, in any run. */
module Outsiders {
  import opened Text
  import opened HubNode
  import opened Cluster

  /** The cluster with strangers around it. */
  datatype Event = Inside(e: Cluster.Event) | Inject(m: Msg)

  /** A request to an internal endpoint. */
  predicate Request(m: Msg) { m.Register? || m.PutKey? || m.PutSchedule? || m.DropSchedule? }

  ghost function Step(s: State, e: Event): Option<State> {
    match e
    case Inside(inner) => Cluster.Step(s, inner)
    case Inject(m) => if Request(m) then Some(s.(pool := s.pool + multiset{m})) else None
  }

  ghost function Run(s: State, es: seq<Event>): Option<State>
    decreases |es|
  {
    if es == [] then Some(s)
    else match Step(s, es[0]) case None => None case Some(t) => Run(t, es[1..])
  }

  /** The token of the message is not that of the hub to which it is sent. */
  ghost predicate Foreign(s: State, m: Msg) {
    Request(m) && (m.at in s.hubs ==> m.token != s.hubs[m.at].Token())
  }

  /** Strangers do not know the token. */
  ghost predicate Strangers(s: State, es: seq<Event>) {
    forall e | e in es && e.Inject? :: Foreign(s, e.m)
  }

  /** t is s with messages of strangers in flight. */
  ghost predicate Same(s: State, t: State, junk: multiset<Msg>) {
    t == s.(pool := s.pool + junk) && forall m | m in junk :: Foreign(s, m)
  }

  lemma ForeignStays(s: State, t: State, m: Msg)
    requires Foreign(s, m) && Grows(s, t)
    ensures Foreign(t, m)
  {}

  lemma JunkStays(s: State, s': State, junk: multiset<Msg>)
    requires (forall m | m in junk :: Foreign(s, m)) && Grows(s, s')
    ensures forall m | m in junk :: Foreign(s', m)
  {
    forall m | m in junk ensures Foreign(s', m) { ForeignStays(s, s', m); }
  }

  /** Taking a message of the cluster out of the pool leaves the strangers' where they are. */
  lemma TakeOut(pool: multiset<Msg>, junk: multiset<Msg>, m: Msg, more: multiset<Msg>)
    requires m in pool
    ensures pool + junk - multiset{m} + more == (pool - multiset{m} + more) + junk
  {}

  lemma TakeJunk(pool: multiset<Msg>, junk: multiset<Msg>, m: Msg)
    requires m in junk
    ensures pool + junk - multiset{m} == pool + (junk - multiset{m})
  {}

  /** Delivering or losing a stranger's message changes nothing but that it is gone. */
  lemma JunkGone(s: State, t: State, junk: multiset<Msg>, e: Cluster.Event, t': State)
    requires Same(s, t, junk) && (e.Deliver? || e.Lose?) && e.m in junk && Cluster.Step(t, e) == Some(t')
    ensures Same(s, t', junk - multiset{e.m})
  {
    hide Node.After, Node.Emits;
    var m := e.m;
    TakeJunk(s.pool, junk, m);
    assert Foreign(s, m);
    if e.Deliver? && m.at in s.hubs {
      s.hubs[m.at].WrongTokenIgnored(m);
      assert s.hubs[m.at := s.hubs[m.at]] == s.hubs;
    }
  }

  lemma BesideTaking(s: State, junk: multiset<Msg>, e: Cluster.Event)
    requires (e.Deliver? || e.Lose?) && e.m in s.pool
    ensures var t' := Cluster.Step(s.(pool := s.pool + junk), e);
            t'.Some? ==> Cluster.Step(s, e).Some? &&
                         t'.value == Cluster.Step(s, e).value.(pool := Cluster.Step(s, e).value.pool + junk)
  {
    hide Node.After, Node.Emits;
    var m := e.m;
    TakeOut(s.pool, junk, m, if e.Deliver? && m.at in s.hubs then s.hubs[m.at].Emits(m) else multiset{});
  }

  lemma BesidePutting(s: State, junk: multiset<Msg>, e: Cluster.Event)
    requires !e.Deliver? && !e.Lose?
    ensures var t' := Cluster.Step(s.(pool := s.pool + junk), e);
            t'.Some? ==> Cluster.Step(s, e).Some? &&
                         t'.value == Cluster.Step(s, e).value.(pool := Cluster.Step(s, e).value.pool + junk)
  {
    hide Node.Registrations, Node.OnLogin, Node.OnPost, Node.OnDelete, Node.WithLogin, Node.Posted,
         Node.WithoutSchedule;
    match e {
      case Tick(h) => if h in s.hubs { PutIn(s.pool, junk, s.hubs[h].Registrations()); }
      case Post(h, sched) => if h in s.hubs { PutIn(s.pool, junk, s.hubs[h].OnPost(sched)); }
      case Delete(h, id) => if h in s.hubs { PutIn(s.pool, junk, s.hubs[h].OnDelete(id)); }
      case Login(h, r, now) => if h in s.hubs { PutIn(s.pool, junk, s.hubs[h].OnLogin(r, now, s.verify)); }
    }
  }

  /** Any other event does to the cluster what it does without strangers. */
  lemma InsideStep(s: State, t: State, junk: multiset<Msg>, e: Cluster.Event, t': State) returns (s': State)
    requires Same(s, t, junk) && Cluster.Step(t, e) == Some(t') && ((e.Deliver? || e.Lose?) ==> e.m in s.pool)
    ensures Cluster.Step(s, e) == Some(s') && Same(s', t', junk)
  {
    hide Cluster.Step, Foreign;
    if e.Deliver? || e.Lose? {
      BesideTaking(s, junk, e);
    } else {
      BesidePutting(s, junk, e);
    }
    s' := Cluster.Step(s, e).value;
    StepGrows(s, e, s');
    JunkStays(s, s', junk);
  }

  lemma PutIn(pool: multiset<Msg>, junk: multiset<Msg>, more: multiset<Msg>)
    ensures pool + junk + more == pool + more + junk
  {}

  lemma {:induction false} Without(s: State, t: State, junk: multiset<Msg>, es: seq<Event>, t': State)
    returns (fs: seq<Cluster.Event>, s': State, junk': multiset<Msg>)
    requires Same(s, t, junk) && Strangers(s, es) && Run(t, es) == Some(t')
    ensures Cluster.Run(s, fs) == Some(s') && Same(s', t', junk')
    ensures forall f | f in fs :: Inside(f) in es
    decreases |es|
  {
    hide Same, Cluster.Step, Foreign;
    if es == [] {
      fs, s', junk' := [], s, junk;
    } else {
      var u := Step(t, es[0]).value;
      assert es[0] in es && forall e | e in es[1..] :: e in es;
      if es[0].Inject? {
        Injected(s, t, junk, es[0].m);
        fs, s', junk' := Without(s, u, junk + multiset{es[0].m}, es[1..], t');
      } else {
        var e := es[0].e;
        InPools(s, t, junk, e, u);
        if (e.Deliver? || e.Lose?) && e.m !in s.pool {
          JunkGone(s, t, junk, e, u);
          fs, s', junk' := Without(s, u, junk - multiset{e.m}, es[1..], t');
        } else {
          var v := InsideStep(s, t, junk, e, u);
          StrangersStay(s, e, v, es[1..]);
          var gs;
          gs, s', junk' := Without(v, u, junk, es[1..], t');
          fs := [e] + gs;
          assert fs[1..] == gs && es[0] == Inside(e);
        }
      }
    }
  }

  lemma Injected(s: State, t: State, junk: multiset<Msg>, m: Msg)
    requires Same(s, t, junk) && Foreign(s, m)
    ensures Same(s, t.(pool := t.pool + multiset{m}), junk + multiset{m})
  {
    assert s.pool + junk + multiset{m} == s.pool + (junk + multiset{m});
  }

  lemma InPools(s: State, t: State, junk: multiset<Msg>, e: Cluster.Event, u: State)
    requires Same(s, t, junk) && Cluster.Step(t, e) == Some(u)
    ensures e.Deliver? || e.Lose? ==> e.m in s.pool || e.m in junk
  {}

  lemma StrangersStay(s: State, e: Cluster.Event, t: State, es: seq<Event>)
    requires Strangers(s, es) && Cluster.Step(s, e) == Some(t)
    ensures Strangers(t, es)
  {
    hide Foreign, Cluster.Step;
    StepGrows(s, e, t);
    forall x | x in es && x.Inject? ensures Foreign(t, x.m) { ForeignStays(s, t, x.m); }
  }

  /** Whatever strangers send, and however their messages are delivered or lost among the others: every hub ends in
      a state, with its peers, keys, schedules, that the cluster reaches without them by the same other events. */
  lemma {:induction false} StrangersChangeNothing(
      s: State, es: seq<Event>, t: State) returns (fs: seq<Cluster.Event>, u: State)
    requires Strangers(s, es) && Run(s, es) == Some(t)
    ensures Cluster.Run(s, fs) == Some(u) && u.hubs == t.hubs && u.pool <= t.pool
    ensures forall f | f in fs :: Inside(f) in es
  {
    assert s.pool + multiset{} == s.pool;
    assert Same(s, s, multiset{});
    var junk;
    fs, u, junk := Without(s, s, multiset{}, es, t);
  }
}
