/** What an admitted registration leads to without any timer: the new peer gets every schedule and every key, and
    learns of the hub with which it has registered. */
module Joining {
  import opened Text
  import opened KeyFile
  import opened HubNode
  import opened Cluster
  import opened Mesh
  import opened SyncChain
  import opened Schedules
  import opened KeyConvergence

  /** p, in its own name, asks g to be taken as a peer. */
  function Joins(s: State, g: Url, p: Url, wantsList: bool): Msg
    requires g in s.hubs
  {
    Register(g, p, s.hubs[g].Token(), wantsList)
  }

  /** The moment at which g has taken p. */
  ghost predicate Joined(s: State, g: Url, p: Url, wantsList: bool, u: State) {
    && Configured(s) && g in s.hubs && p in s.hubs && g != p
    && Step(s, Deliver(Joins(s, g, p, wantsList))) == Some(u)
  }

  lemma {:induction false} JoinedStarts(s: State, g: Url, p: Url, wantsList: bool, u: State)
    requires Joined(s, g, p, wantsList, u)
    ensures Grows(s, u) && p in u.hubs[g].peers && SyncAll(g, p) in u.pool
    ensures p !in s.hubs[g].peers ==> Register(p, g, s.hubs[g].Token(), false) in u.pool
  {
    hide Step;
    var m := Joins(s, g, p, wantsList);
    StepGrows(s, Deliver(m), u);
    s.hubs[g].RightTokenAdmitted(m);
    DeliverEmits(s, m, u, SyncAll(g, p));
    if p !in s.hubs[g].peers {
      DeliverEmits(s, m, u, Register(p, g, s.hubs[g].Token(), false));
    }
  }

  // ---- schedules -------------------------------------------------------------------------------

  lemma {:induction false} RunSpreading(
      s: State, es: seq<Event>, t: State, all: map<string, Schedule>, g: Url, p: Url, id: string)
    requires Configured(s) && GrowOnly(s, all) && Additions(es, all) && NoLoss(es) && Run(s, es) == Some(t)
    requires g in s.hubs && p in s.hubs && g != p && p in s.hubs[g].peers && Has(s, g, id) && id in all
    requires Spreading(s, es, all, g, p, id)
    ensures g in t.hubs && p in t.hubs && Spreading(t, [], all, g, p, id)
    decreases |es|
  {
    hide Step, Spreading, GrowOnly, Addition;
    if es != [] {
      var u := Step(s, es[0]).value;
      assert es[0] in es && es == [es[0]] + es[1..];
      GrowStep(s, es[0], u, all);
      ConfiguredStays(s, u);
      SpreadingStep(s, es[0], u, es[1..], all, g, p, id);
      RunSpreading(u, es[1..], t, all, g, p, id);
    }
  }

  lemma ConfiguredStays(s: State, t: State)
    requires Configured(s) && Grows(s, t)
    ensures Configured(t)
  {}

  /** Once everything has been delivered, the new peer has every schedule that the hub had. */
  lemma {:induction false} PeerGetsSchedules(
      s: State, g: Url, p: Url, wantsList: bool, u: State, es: seq<Event>, t: State, all: map<string, Schedule>)
    requires Joined(s, g, p, wantsList, u) && GrowOnly(s, all) && Additions(es, all)
    requires NoLoss(es) && Run(u, es) == Some(t) && t.pool == multiset{}
    ensures forall id | Has(s, g, id) :: Has(t, p, id) && t.hubs[p].schedules[id] == s.hubs[g].schedules[id]
  {
    hide Step, Run, Additions, NoLoss;
    JoinedStarts(s, g, p, wantsList, u);
    ConfiguredStays(s, u);
    GrowStep(s, Deliver(Joins(s, g, p, wantsList)), u, all);
    RunKeepsGrowOnly(u, es, t, all);
    forall id | Has(s, g, id) ensures Has(t, p, id) && t.hubs[p].schedules[id] == s.hubs[g].schedules[id] {
      assert NodeFromAll(s.hubs[g], all) && Has(u, g, id);
      assert Syncing(u, es, g, p);
      RunSpreading(u, es, t, all, g, p, id);
      assert !Syncing(t, [], g, p);
      assert NodeFromAll(t.hubs[p], all);
    }
  }

  // ---- keys ------------------------------------------------------------------------------------

  lemma {:induction false} RunKeySpreading(
      s: State, es: seq<Event>, t: State, all: map<string, Key>, g: Url, p: Url, id: string)
    requires Configured(s) && Keyed(s, all) && OneKeyEach(s, es, all) && NoLoss(es) && Run(s, es) == Some(t)
    requires g in s.hubs && p in s.hubs && g != p && p in s.hubs[g].peers && HasKey(s, g, id) && id in all
    requires KeySpreading(s, es, all, g, p, id)
    ensures g in t.hubs && p in t.hubs && KeySpreading(t, [], all, g, p, id)
    decreases |es|
  {
    hide Step, KeySpreading, Keyed, OneKeyEach;
    if es != [] {
      var u := Step(s, es[0]).value;
      assert es[0] in es && es == [es[0]] + es[1..];
      KeyNext(s, es, all);
      KeyedStep(s, es[0], u, all);
      ConfiguredStays(s, u);
      KeySpreadingStep(s, es[0], u, es[1..], all, g, p, id);
      RunKeySpreading(u, es[1..], t, all, g, p, id);
    }
  }

  /** And every key. */
  lemma {:induction false} PeerGetsKeys(
      s: State, g: Url, p: Url, wantsList: bool, u: State, es: seq<Event>, t: State, all: map<string, Key>)
    requires Joined(s, g, p, wantsList, u) && Keyed(s, all) && OneKeyEach(u, es, all)
    requires NoLoss(es) && Run(u, es) == Some(t) && t.pool == multiset{}
    ensures forall id | HasKey(s, g, id) :: HasKey(t, p, id) && t.hubs[p].keys[id] == s.hubs[g].keys[id]
  {
    hide Step, Run, OneKeyEach, NoLoss, Keyed, Decode;
    JoinedStarts(s, g, p, wantsList, u);
    ConfiguredStays(s, u);
    NoLoginNow(s, Deliver(Joins(s, g, p, wantsList)), all);
    KeyedStep(s, Deliver(Joins(s, g, p, wantsList)), u, all);
    RunKeyed(u, es, t, all);
    forall id | HasKey(s, g, id) ensures HasKey(t, p, id) && t.hubs[p].keys[id] == s.hubs[g].keys[id] {
      KeyedHolds(s, all, g, id);
      assert HasKey(u, g, id);
      assert Syncing(u, es, g, p);
      RunKeySpreading(u, es, t, all, g, p, id);
      assert !Syncing(t, [], g, p);
      KeyedHolds(t, all, p, id);
    }
  }

  lemma NoLoginNow(s: State, e: Event, all: map<string, Key>)
    requires !e.Login?
    ensures KeyNow(s, e, all)
  {}

  // ---- the announcement --------------------------------------------------------------------------

  ghost predicate Announced(s: State, g: Url, p: Url) {
    && g in s.hubs && p in s.hubs
    && (g in s.hubs[p].peers || Register(p, g, s.hubs[g].Token(), false) in s.pool)
  }

  lemma {:induction false} AnnouncedStep(s: State, e: Event, t: State, g: Url, p: Url)
    requires Configured(s) && g != p && Announced(s, g, p) && Step(s, e) == Some(t) && !e.Lose? && Grows(s, t)
    ensures Announced(t, g, p)
  {
    hide Step, Node.Emits;
    var m := Register(p, g, s.hubs[g].Token(), false);
    if g !in s.hubs[p].peers {
      if e == Deliver(m) {
        DeliverAfter(s, m, t);
      } else {
        Stays(s, e, t, m);
      }
    }
  }

  lemma {:induction false} RunAnnounced(s: State, es: seq<Event>, t: State, g: Url, p: Url)
    requires Configured(s) && g != p && Announced(s, g, p) && NoLoss(es) && Run(s, es) == Some(t)
    ensures Announced(t, g, p)
    decreases |es|
  {
    hide Step, Announced;
    if es != [] {
      var u := Step(s, es[0]).value;
      assert es[0] in es;
      StepGrows(s, es[0], u);
      ConfiguredStays(s, u);
      AnnouncedStep(s, es[0], u, g, p);
      RunAnnounced(u, es[1..], t, g, p);
    }
  }

  /** A hub that takes a new peer announces itself to it, so they know each other. */
  lemma {:induction false} PeersMeet(s: State, g: Url, p: Url, wantsList: bool, u: State, es: seq<Event>, t: State)
    requires Joined(s, g, p, wantsList, u) && p !in s.hubs[g].peers
    requires NoLoss(es) && Run(u, es) == Some(t) && t.pool == multiset{}
    ensures Knows(t, g, p) && Knows(t, p, g)
  {
    hide Step, Run, NoLoss;
    JoinedStarts(s, g, p, wantsList, u);
    ConfiguredStays(s, u);
    RunAnnounced(u, es, t, g, p);
    RunGrows(u, es, t);
  }
}
