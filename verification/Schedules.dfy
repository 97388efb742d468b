/** Schedules across the cluster: everything stored anywhere passed the checks of POST /schedules, and
    without deletions a lossless round over a full mesh gives every hub the union of all schedules. */
module Schedules {
  import opened Text
  import opened Auth
  import opened HubNode
  import opened Cluster
  import opened Mesh
  import opened SyncChain

  // ---- validity --------------------------------------------------------------------------------

  ghost predicate GoodNode(n: Node) {
    forall id | id in n.schedules :: n.schedules[id].id == id && ValidSchedule(n.schedules[id])
  }

  ghost predicate GoodMsg(m: Msg) { m.PutSchedule? ==> ValidSchedule(m.sched) }

  ghost predicate GoodSchedules(s: State) {
    && (forall h | h in s.hubs :: GoodNode(s.hubs[h]))
    && (forall m | m in s.pool :: GoodMsg(m))
  }

  lemma GoodEmits(n: Node, m: Msg, x: Msg)
    requires GoodNode(n) && x in n.Emits(m)
    ensures GoodMsg(x)
  {
    hide ValidSchedule, Node.Emits, Node.Loadable, Node.KeyMessage;
    n.Explained(m, x);
  }

  lemma GoodAfter(n: Node, m: Msg)
    requires GoodNode(n) && GoodMsg(m)
    ensures GoodNode(n.After(m))
  {
    hide ValidSchedule;
  }

  /** What a request from outside makes a hub send. */
  lemma {:induction false} GoodOutside(s: State, e: Event, t: State, x: Msg)
    requires Step(s, e) == Some(t) && !e.Deliver? && x in t.pool && x !in s.pool
    ensures GoodMsg(x)
  {
    hide Authenticate, Step, ValidSchedule;
    OutsideMessage(s, e, t, x);
  }

  lemma {:induction false} GoodStep(s: State, e: Event, t: State)
    requires GoodSchedules(s) && Step(s, e) == Some(t)
    ensures GoodSchedules(t)
  {
    hide Authenticate, Node.Emits, Node.After, Node.OnLogin, Node.OnPost, Node.OnDelete, Node.Registrations, GoodMsg;
    forall x | x in t.pool ensures GoodMsg(x) {
      if x !in s.pool {
        if e.Deliver? {
          GoodEmits(s.hubs[e.m.at], e.m, x);
        } else {
          GoodOutside(s, e, t, x);
        }
      }
    }
    if e.Deliver? && e.m.at in s.hubs {
      GoodAfter(s.hubs[e.m.at], e.m);
    }
  }

  /** Cluster-wide validity: in every run every schedule on every hub is stored under its own id and passes the
      checks of POST /schedules, although the sync endpoint repeats none of them. */
  lemma {:induction false} RunKeepsGood(s: State, es: seq<Event>, t: State)
    requires GoodSchedules(s) && Run(s, es) == Some(t)
    ensures GoodSchedules(t)
    decreases |es|
  {
    if es != [] {
      GoodStep(s, es[0], Step(s, es[0]).value);
      RunKeepsGood(Step(s, es[0]).value, es[1..], t);
    }
  }

  // ---- growing only ----------------------------------------------------------------------------

  /** No schedule is deleted, and what is added under an id is always the same schedule, `all[id]`. */
  ghost predicate Additions(es: seq<Event>, all: map<string, Schedule>) {
    forall e | e in es :: Addition(e, all)
  }

  ghost predicate Addition(e: Event, all: map<string, Schedule>) {
    !e.Delete? && (e.Post? && ValidSchedule(e.s) ==> e.s.id in all && all[e.s.id] == e.s)
  }

  ghost predicate SubMap(a: map<string, Schedule>, b: map<string, Schedule>) {
    forall id | id in a :: id in b && a[id] == b[id]
  }

  ghost predicate Has(s: State, h: Url, id: string) { h in s.hubs && id in s.hubs[h].schedules }

  ghost predicate FromAll(s: State, all: map<string, Schedule>, m: Msg) {
    && !m.DropSchedule?
    && (m.PutSchedule? ==> m.sched.id in all && all[m.sched.id] == m.sched && exists g :: Has(s, g, m.sched.id))
  }

  ghost predicate NodeFromAll(n: Node, all: map<string, Schedule>) { SubMap(n.schedules, all) && n.Valid() }

  /** Every hub holds a part of `all`, every copy in flight is a copy of something that a hub holds. */
  ghost predicate GrowOnly(s: State, all: map<string, Schedule>) {
    && (forall h | h in s.hubs :: NodeFromAll(s.hubs[h], all))
    && (forall m | m in s.pool :: FromAll(s, all, m))
  }

  lemma SchedulesAfter(n: Node, all: map<string, Schedule>, m: Msg)
    requires NodeFromAll(n, all) && !m.DropSchedule?
    requires m.PutSchedule? ==> m.sched.id in all && all[m.sched.id] == m.sched
    ensures NodeFromAll(n.After(m), all) && n.schedules.Keys <= n.After(m).schedules.Keys
  {}

  lemma {:induction false} GrowHubs(s: State, e: Event, t: State, all: map<string, Schedule>)
    requires GrowOnly(s, all) && Addition(e, all) && Step(s, e) == Some(t) && Grows(s, t)
    ensures forall h | h in t.hubs :: NodeFromAll(t.hubs[h], all)
    ensures forall h, id | Has(s, h, id) :: Has(t, h, id)
  {
    hide Authenticate, ValidSchedule, Node.Emits, Node.After, Node.OnLogin, Node.OnPost, Node.OnDelete,
         Node.Registrations;
    if e.Deliver? && e.m.at in s.hubs {
      assert FromAll(s, all, e.m);
      SchedulesAfter(s.hubs[e.m.at], all, e.m);
    }
  }

  lemma EmitsFromAll(n: Node, m: Msg, x: Msg, all: map<string, Schedule>)
    requires NodeFromAll(n, all) && x in n.Emits(m)
    ensures !x.DropSchedule? && (x.PutSchedule? ==> x.sched.id in n.schedules && n.schedules[x.sched.id] == x.sched)
  {
    hide ValidSchedule, Node.Emits, Node.Loadable, Node.KeyMessage;
    n.Explained(m, x);
  }

  lemma {:induction false} OutsideFromAll(s: State, e: Event, t: State, all: map<string, Schedule>, x: Msg)
    requires GrowOnly(s, all) && Addition(e, all) && Step(s, e) == Some(t)
    requires !e.Deliver? && x in t.pool && x !in s.pool
    ensures FromAll(t, all, x)
  {
    hide Authenticate, ValidSchedule, Node.Emits, Node.After, Node.OnLogin, Node.OnPost, Node.OnDelete,
         Node.Registrations;
    OutsideMessage(s, e, t, x);
    if e.Post? {
      assert Has(t, e.h, e.s.id);
    }
  }

  lemma {:induction false} GrowStep(s: State, e: Event, t: State, all: map<string, Schedule>)
    requires GrowOnly(s, all) && Addition(e, all) && Step(s, e) == Some(t)
    ensures GrowOnly(t, all) && Grows(s, t)
    ensures forall h, id | Has(s, h, id) :: Has(t, h, id)
  {
    hide Authenticate, Node.Emits, Node.After, Node.OnLogin, Node.OnPost, Node.OnDelete, Node.Registrations,
         NodeFromAll, Has, Addition;
    StepGrows(s, e, t);
    GrowHubs(s, e, t, all);
    forall x | x in t.pool ensures FromAll(t, all, x) {
      if x in s.pool {
        assert FromAll(s, all, x);
      } else if e.Deliver? {
        EmitsFromAll(s.hubs[e.m.at], e.m, x, all);
        OwnCopy(s, t, e.m.at, x, all);
      } else {
        OutsideFromAll(s, e, t, all, x);
      }
    }
  }

  lemma OwnCopy(s: State, t: State, h: Url, x: Msg, all: map<string, Schedule>)
    requires h in s.hubs && NodeFromAll(s.hubs[h], all) && (forall g, id | Has(s, g, id) :: Has(t, g, id))
    requires !x.DropSchedule?
    requires x.PutSchedule? ==> x.sched.id in s.hubs[h].schedules && s.hubs[h].schedules[x.sched.id] == x.sched
    ensures FromAll(t, all, x)
  {
    if x.PutSchedule? {
      assert Has(s, h, x.sched.id);
    }
  }

  /** At all times every hub's map is a part of everything that was added, and no hub loses a schedule. */
  lemma {:induction false} RunKeepsGrowOnly(s: State, es: seq<Event>, t: State, all: map<string, Schedule>)
    requires GrowOnly(s, all) && Additions(es, all) && Run(s, es) == Some(t)
    ensures GrowOnly(t, all) && Grows(s, t)
    ensures forall h, id | Has(s, h, id) :: Has(t, h, id)
    decreases |es|
  {
    if es != [] {
      assert es[0] in es;
      GrowStep(s, es[0], Step(s, es[0]).value, all);
      RunKeepsGrowOnly(Step(s, es[0]).value, es[1..], t, all);
    }
  }

  /** A deletion is announced to every peer, which then drops exactly this schedule. */
  lemma DeletionArrives(n: Node, p: Node, id: string)
    requires id in n.schedules && id != "" && p.url in n.peers && p.url != n.url && p.Token() == n.Token()
    ensures var m := DropSchedule(p.url, id, n.Token());
            && m in n.OnDelete(id)
            && p.After(m) == p.(schedules := map i | i in p.schedules && i != id :: p.schedules[i])
  {
    CopyFor(n.peers - {n.url}, DropSchedule(n.url, id, n.Token()), p.url);
  }

  // ---- convergence -----------------------------------------------------------------------------

  /** p holds the schedule or a copy of it is somewhere on its way from g to p. */
  ghost predicate Spreading(s: State, es: seq<Event>, all: map<string, Schedule>, g: Url, p: Url, id: string)
    requires g in s.hubs && p in s.hubs && id in all
  {
    || Syncing(s, es, g, p)
    || SyncSchedules(g, p) in s.pool
    || PutSchedule(p, all[id], s.hubs[g].Token()) in s.pool
    || id in s.hubs[p].schedules
  }

  /** The end of the chain from the tick to the copy, one link at a time. */
  lemma ChainStep(s: State, t: State, m: Msg, all: map<string, Schedule>, g: Url, p: Url, id: string)
    requires Configured(s) && Step(s, Deliver(m)) == Some(t) && Grows(s, t)
    requires g in s.hubs && p in s.hubs && g != p && p in s.hubs[g].peers && id in s.hubs[g].schedules && id in all
    requires all[id].id == id && s.hubs[g].schedules[id] == all[id]
    requires m == SyncAll(g, p) || m == SyncSchedules(g, p) || m == PutSchedule(p, all[id], s.hubs[g].Token())
    ensures Spreading(t, [], all, g, p, id)
  {
    hide Copies, Node.KeyMessages, Step, Syncing;
    match m
    case SyncAll(_, _) => DeliverEmits(s, m, t, SyncSchedules(g, p));
    case SyncSchedules(_, _) =>
      assert s.hubs[g].ScheduleMessage(p, id) in s.hubs[g].ScheduleMessages(s.hubs[g].schedules.Keys, p);
      DeliverEmits(s, m, t, s.hubs[g].ScheduleMessage(p, id));
    case PutSchedule(_, _, _) => DeliverAfter(s, m, t);
  }

  lemma SpreadingMore(s: State, es: seq<Event>, all: map<string, Schedule>, g: Url, p: Url, id: string)
    requires g in s.hubs && p in s.hubs && id in all && Spreading(s, [], all, g, p, id)
    ensures Spreading(s, es, all, g, p, id)
  {}

  lemma {:induction false} SpreadingStep(
      s: State, e: Event, t: State, es: seq<Event>, all: map<string, Schedule>, g: Url, p: Url, id: string)
    requires Configured(s) && GrowOnly(s, all) && Step(s, e) == Some(t) && !e.Lose? && Grows(s, t)
    requires forall h, i | Has(s, h, i) :: Has(t, h, i)
    requires g in s.hubs && p in s.hubs && g != p && p in s.hubs[g].peers && Has(s, g, id) && id in all
    requires Spreading(s, [e] + es, all, g, p, id)
    ensures Spreading(t, es, all, g, p, id)
  {
    hide Step, Syncing, FromAll;
    assert NodeFromAll(s.hubs[g], all);
    if Syncing(s, [e] + es, g, p) {
      SyncingStep(s, e, t, es, g, p);
      if !Syncing(t, es, g, p) {
        ChainStep(s, t, SyncAll(g, p), all, g, p, id);
        SpreadingMore(t, es, all, g, p, id);
      }
    } else if id in s.hubs[p].schedules {
      assert Has(s, p, id) && Has(t, p, id);
    } else {
      var m :| m in s.pool && (m == SyncSchedules(g, p) || m == PutSchedule(p, all[id], s.hubs[g].Token()));
      if e == Deliver(m) {
        ChainStep(s, t, m, all, g, p, id);
        SpreadingMore(t, es, all, g, p, id);
      } else {
        Stays(s, e, t, m);
      }
    }
  }

  /** Some hub holds the schedule and passes it on to every other. */
  ghost predicate Home(s: State, es: seq<Event>, all: map<string, Schedule>, id: string)
    requires id in all
  {
    exists g :: Has(s, g, id) && forall p | p in s.hubs && p != g :: Spreading(s, es, all, g, p, id)
  }

  ghost predicate AllAtHome(s: State, es: seq<Event>, all: map<string, Schedule>)
    requires GrowOnly(s, all)
  {
    forall h, id | Has(s, h, id) :: Held(s, all, h, id) && Home(s, es, all, id)
  }

  ghost predicate Held(s: State, all: map<string, Schedule>, h: Url, id: string) { h in s.hubs && id in all }

  lemma {:induction false} HomeStep(
      s: State, e: Event, t: State, es: seq<Event>, all: map<string, Schedule>, id: string)
    requires Configured(s) && FullMesh(s) && GrowOnly(s, all) && Step(s, e) == Some(t) && !e.Lose? && Grows(s, t)
    requires forall h, i | Has(s, h, i) :: Has(t, h, i)
    requires id in all && Home(s, [e] + es, all, id)
    ensures Home(t, es, all, id)
  {
    hide Step, Spreading, GrowOnly;
    var g :| Has(s, g, id) && forall p | p in s.hubs && p != g :: Spreading(s, [e] + es, all, g, p, id);
    forall p | p in t.hubs && p != g ensures Spreading(t, es, all, g, p, id) {
      assert Knows(s, g, p);
      SpreadingStep(s, e, t, es, all, g, p, id);
    }
    assert Has(t, g, id);
  }

  /** A schedule that h did not have before was posted there or is a copy of one that some hub has. */
  lemma NewAtHub(s: State, e: Event, t: State, all: map<string, Schedule>, h: Url, id: string)
    requires GrowOnly(s, all) && Step(s, e) == Some(t) && Has(t, h, id) && !Has(s, h, id)
    ensures (e.Post? && e.h == h && e.s.id == id && ValidSchedule(e.s)) || exists g :: Has(s, g, id)
  {
    hide Authenticate, ValidSchedule, Node.Emits, Node.OnLogin, Node.OnPost, Node.OnDelete, Node.Registrations;
    if e.Deliver? {
      assert FromAll(s, all, e.m);
    }
  }

  lemma PostSends(s: State, g: Url, sched: Schedule, t: State, p: Url)
    requires Step(s, Post(g, sched)) == Some(t) && ValidSchedule(sched) && g in s.hubs && p in s.hubs[g].peers
    requires p != s.hubs[g].url
    ensures PutSchedule(p, sched, s.hubs[g].Token()) in t.pool && Has(t, g, sched.id)
  {
    hide ValidSchedule, Copies;
    CopyFor(s.hubs[g].peers - {s.hubs[g].url}, PutSchedule(s.hubs[g].url, sched, s.hubs[g].Token()), p);
  }

  lemma PostStores(s: State, g: Url, sched: Schedule, t: State)
    requires Step(s, Post(g, sched)) == Some(t) && ValidSchedule(sched)
    ensures Has(t, g, sched.id)
  {
    hide ValidSchedule, Node.OnPost;
  }

  lemma PostedAtHome(s: State, e: Event, t: State, es: seq<Event>, all: map<string, Schedule>)
    requires Configured(s) && FullMesh(s) && Addition(e, all) && Step(s, e) == Some(t) && Grows(s, t)
    requires e.Post? && ValidSchedule(e.s)
    ensures Home(t, es, all, e.s.id)
  {
    hide ValidSchedule, Step;
    var g := e.h;
    PostStores(s, g, e.s, t);
    forall p | p in t.hubs && p != g ensures Spreading(t, es, all, g, p, e.s.id) {
      assert Knows(s, g, p);
      PostSends(s, g, e.s, t, p);
    }
  }

  lemma AllAtHomeStep(s: State, e: Event, t: State, es: seq<Event>, all: map<string, Schedule>)
    requires Configured(s) && FullMesh(s) && GrowOnly(s, all) && Addition(e, all)
    requires Step(s, e) == Some(t) && !e.Lose? && Grows(s, t) && GrowOnly(t, all)
    requires forall h, i | Has(s, h, i) :: Has(t, h, i)
    requires AllAtHome(s, [e] + es, all)
    ensures AllAtHome(t, es, all)
  {
    hide Step, Home, ValidSchedule, FullMesh, Configured;
    forall h, id | Has(t, h, id) ensures Held(t, all, h, id) && Home(t, es, all, id) {
      assert NodeFromAll(t.hubs[h], all);
      if !Has(s, h, id) {
        NewAtHub(s, e, t, all, h, id);
      }
      if g :| Has(s, g, id) {
        assert Held(s, all, g, id);
        HomeStep(s, e, t, es, all, id);
      } else {
        PostedAtHome(s, e, t, es, all);
      }
    }
  }

  lemma {:induction false} RunAllAtHome(s: State, es: seq<Event>, t: State, all: map<string, Schedule>)
    requires Configured(s) && FullMesh(s) && GrowOnly(s, all) && Additions(es, all) && NoLoss(es)
    requires Run(s, es) == Some(t) && AllAtHome(s, es, all)
    ensures GrowOnly(t, all) && AllAtHome(t, [], all)
    decreases |es|
  {
    if es != [] {
      var u := Step(s, es[0]).value;
      assert es[0] in es && es == [es[0]] + es[1..];
      GrowStep(s, es[0], u, all);
      StillFull(s, u);
      AllAtHomeStep(s, es[0], u, es[1..], all);
      RunAllAtHome(u, es[1..], t, all);
    }
  }

  lemma AtHomeFirst(s: State, es: seq<Event>, all: map<string, Schedule>)
    requires GrowOnly(s, all) && forall h | h in s.hubs :: Tick(h) in es
    ensures AllAtHome(s, es, all)
  {
    forall h, id | Has(s, h, id) ensures Held(s, all, h, id) && Home(s, es, all, id) {
      assert NodeFromAll(s.hubs[h], all) && Tick(h) in es;
    }
  }

  /** When nothing is in flight any more, what one hub has every hub has. */
  lemma AtHomeLast(t: State, all: map<string, Schedule>, h: Url, p: Url, id: string)
    requires GrowOnly(t, all) && AllAtHome(t, [], all) && t.pool == multiset{} && Has(t, h, id) && p in t.hubs
    ensures Has(t, p, id) && id in all && t.hubs[p].schedules[id] == all[id]
  {
    assert Held(t, all, h, id) && Home(t, [], all, id);
    var g :| Has(t, g, id) && forall q | q in t.hubs && q != g :: Spreading(t, [], all, g, q, id);
    assert p != g ==> Spreading(t, [], all, g, p, id);
    assert NodeFromAll(t.hubs[p], all);
  }

  /** Grow-only convergence: from a full mesh one lossless round, in which further schedules may be added, gives
      all hubs the same map, and nothing that a hub had is missing from it. */
  lemma {:induction false} ScheduleConvergence(s: State, es: seq<Event>, t: State, all: map<string, Schedule>)
    requires Configured(s) && FullMesh(s) && GrowOnly(s, all) && RoundOf(s, es, t) && Additions(es, all)
    ensures t.hubs.Keys == s.hubs.Keys
    ensures forall h, p | h in t.hubs && p in t.hubs :: t.hubs[h].schedules == t.hubs[p].schedules
    ensures forall h, p, id | Has(s, h, id) && p in t.hubs ::
            Has(t, p, id) && t.hubs[p].schedules[id] == s.hubs[h].schedules[id]
  {
    hide AllAtHome, Additions, FullMesh, Configured, Run, NoLoss;
    AtHomeFirst(s, es, all);
    RunKeepsGrowOnly(s, es, t, all);
    RunAllAtHome(s, es, t, all);
    forall h, p, id | Has(t, h, id) && p in t.hubs
      ensures Has(t, p, id) && id in all && t.hubs[p].schedules[id] == all[id]
    {
      AtHomeLast(t, all, h, p, id);
    }
    forall h, p | h in t.hubs && p in t.hubs ensures t.hubs[h].schedules == t.hubs[p].schedules {
      SameMaps(t, all, h, p);
    }
    forall h, p, id | Has(s, h, id) && p in t.hubs
      ensures Has(t, p, id) && t.hubs[p].schedules[id] == s.hubs[h].schedules[id]
    {
      assert Has(t, h, id) && NodeFromAll(s.hubs[h], all);
    }
  }

  lemma SameMaps(t: State, all: map<string, Schedule>, h: Url, p: Url)
    requires h in t.hubs && p in t.hubs
    requires forall g, q, id | Has(t, g, id) && q in t.hubs ::
            Has(t, q, id) && id in all && t.hubs[q].schedules[id] == all[id]
    ensures t.hubs[h].schedules == t.hubs[p].schedules
  {
    forall id ensures id in t.hubs[h].schedules <==> id in t.hubs[p].schedules {
      assert Has(t, h, id) <==> id in t.hubs[h].schedules;
      assert Has(t, p, id) <==> id in t.hubs[p].schedules;
    }
    forall id | id in t.hubs[h].schedules ensures t.hubs[h].schedules[id] == t.hubs[p].schedules[id] {
      assert Has(t, h, id);
    }
  }

  /** What was posted in a run is still where it was posted. */
  lemma {:induction false} PostedStays(s: State, es: seq<Event>, t: State, all: map<string, Schedule>, e: Event)
    requires GrowOnly(s, all) && Additions(es, all) && Run(s, es) == Some(t)
    requires e in es && e.Post? && ValidSchedule(e.s)
    ensures Has(t, e.h, e.s.id)
    decreases |es|
  {
    hide ValidSchedule;
    var u := Step(s, es[0]).value;
    assert es[0] in es;
    GrowStep(s, es[0], u, all);
    if es[0] == e {
      assert Has(u, e.h, e.s.id);
      RunKeepsGrowOnly(u, es[1..], t, all);
    } else {
      PostedStays(u, es[1..], t, all, e);
    }
  }

  lemma {:induction false} PostedAtEnd(
      start: State, before: seq<Event>, s: State, es: seq<Event>, t: State, all: map<string, Schedule>, e: Event)
    requires GrowOnly(start, all) && Run(start, before) == Some(s) && Run(s, es) == Some(t)
    requires Additions(before, all) && Additions(es, all)
    requires e in before + es && e.Post? && ValidSchedule(e.s)
    ensures Has(t, e.h, e.s.id)
  {
    hide ValidSchedule, Step;
    RunKeepsGrowOnly(start, before, s, all);
    RunKeepsGrowOnly(s, es, t, all);
    if e in before {
      PostedStays(start, before, s, all, e);
    } else {
      PostedStays(s, es, t, all, e);
    }
  }

  /** From hubs without schedules: whatever is added before and during a lossless round over a full mesh is,
      at the end of the round, exactly what every hub has. */
  lemma {:induction false} UnionEverywhere(
      start: State, before: seq<Event>, s: State, es: seq<Event>, t: State, all: map<string, Schedule>)
    requires Configured(start) && Closed(start) && start.pool == multiset{}
    requires forall h | h in start.hubs :: start.hubs[h].schedules == map[]
    requires Run(start, before) == Some(s) && FullMesh(s) && RoundOf(s, es, t)
    requires Additions(before, all) && Additions(es, all)
    requires forall id | id in all :: exists e :: e in before + es && e.Post? && ValidSchedule(e.s) && e.s.id == id
    ensures forall h | h in t.hubs :: t.hubs[h].schedules == all
  {
    hide Step, Run, Additions, ValidSchedule, Configured, Closed, FullMesh;
    assert GrowOnly(start, all);
    RunKeepsGrowOnly(start, before, s, all);
    RunKeepsClosed(start, before, s);
    RunKeepsGrowOnly(s, es, t, all);
    ScheduleConvergence(s, es, t, all);
    forall id, p | id in all && p in t.hubs ensures id in t.hubs[p].schedules {
      var e :| e in before + es && e.Post? && ValidSchedule(e.s) && e.s.id == id;
      PostedAtEnd(start, before, s, es, t, all, e);
    }
    forall h | h in t.hubs ensures t.hubs[h].schedules == all {
      assert NodeFromAll(t.hubs[h], all);
    }
  }
}
