/** How a timer tick on one hub leads to a full sync to each of its peers. */
module SyncChain {
  import opened Text
  import opened HubNode
  import opened Cluster
  import opened Mesh

  /** A tick of g is yet to come, or the exchange with p that it starts is on its way, or the full sync is. */
  ghost predicate Syncing(s: State, es: seq<Event>, g: Url, p: Url)
    requires g in s.hubs
  {
    || Tick(g) in es
    || Register(p, g, s.hubs[g].Token(), true) in s.pool
    || Answer(p, g) in s.pool
    || (exists l :: PeerList(g, p, l) in s.pool)
    || SyncAll(g, p) in s.pool
  }

  lemma TickRegisters(s: State, t: State, g: Url, p: Url)
    requires Configured(s) && g in s.hubs && p in s.hubs[g].peers && p != g && Step(s, Tick(g)) == Some(t)
    ensures Register(p, g, s.hubs[g].Token(), true) in t.pool
  {
    s.hubs[g].RegistrationFor(p);
  }

  lemma LinkStep(s: State, t: State, m: Msg, g: Url, p: Url)
    requires Configured(s) && Step(s, Deliver(m)) == Some(t) && Grows(s, t)
    requires g in s.hubs && p in s.hubs && g != p
    requires || m == Register(p, g, s.hubs[g].Token(), true) || m == Answer(p, g)
             || (m.PeerList? && m.at == g && m.peer == p)
    ensures Syncing(t, [], g, p)
  {
    hide Copies, Step;
    match m
    case Register(_, _, _, _) => DeliverEmits(s, m, t, Answer(p, g));
    case Answer(_, _) => DeliverEmits(s, m, t, PeerList(g, p, s.hubs[p].peers));
    case PeerList(_, _, _) => DeliverEmits(s, m, t, SyncAll(g, p));
  }

  lemma SyncingMore(s: State, es: seq<Event>, g: Url, p: Url)
    requires g in s.hubs && Syncing(s, [], g, p)
    ensures Syncing(s, es, g, p)
  {}

  /** Nothing but the sync itself ends the chain. */
  lemma {:induction false} SyncingStep(s: State, e: Event, t: State, es: seq<Event>, g: Url, p: Url)
    requires Configured(s) && Step(s, e) == Some(t) && !e.Lose? && Grows(s, t)
    requires g in s.hubs && p in s.hubs && g != p && p in s.hubs[g].peers
    requires Syncing(s, [e] + es, g, p)
    ensures Syncing(t, es, g, p) || e == Deliver(SyncAll(g, p))
  {
    hide Step;
    if Tick(g) in es {
    } else if e == Tick(g) {
      TickRegisters(s, t, g, p);
    } else {
      var m :| m in s.pool &&
          (|| m == Register(p, g, s.hubs[g].Token(), true) || m == Answer(p, g)
           || (m.PeerList? && m.at == g && m.peer == p) || m == SyncAll(g, p));
      if e != Deliver(m) {
        Stays(s, e, t, m);
        if m.PeerList? {
          assert PeerList(g, p, m.list) in t.pool;
        }
      } else if !m.SyncAll? {
        LinkStep(s, t, m, g, p);
        SyncingMore(t, es, g, p);
      }
    }
  }
}
