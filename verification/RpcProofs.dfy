/** What every run of one agent connection keeps. */
module RpcProofs {
  import opened Text
  import opened PendingTable
  import opened RpcSystem

  // ---- ownership of channels -------------------------------------------------------------------

  /** Channels belong to calls one to one, ids in the map are the ids of their calls. */
  ghost predicate Owners(s: System) {
    && |s.owners| == |s.table.chans|
    && (forall c | 0 <= c < |s.owners| ::
          var i := s.owners[c];
          i < |s.calls| && s.calls[i].chan == c && !s.calls[i].phase.Fresh? && !s.calls[i].phase.Numbered?)
    && (forall i | 0 <= i < |s.calls| && (s.calls[i].Waits() || s.calls[i].phase.Leaving?) ::
          s.calls[i].chan < |s.owners| && s.owners[s.calls[i].chan] == i)
    && (s.table.pending.Some? ==>
          forall id | id in s.table.pending.value ::
            s.table.pending.value[id] < |s.owners| && s.calls[s.owners[s.table.pending.value[id]]].id == id)
  }

  /** The channel in the reader's hands is out of the map, open, and empty until the reader fills it. */
  ghost predicate ReaderOwns(s: System) {
    match s.reader
    case Idle => true
    case Holding(c, _) => c < |s.table.chans| && s.table.chans[c] == EMPTY && !s.table.Holds(c)
    case Filled(c) => c < |s.table.chans| && !s.table.chans[c].closed && !s.table.Holds(c)
  }

  ghost predicate Own(s: System) {
    s.table.Valid() && Owners(s) && ReaderOwns(s)
  }

  /** A call that has (or never had) a channel moves on without touching the table. */
  lemma OwnMove(s: System, i: nat, p: Phase)
    requires Own(s) && i < |s.calls| && !p.Fresh? && !p.Numbered?
    requires s.calls[i].phase.Numbered? ==> p.Done?
    requires s.calls[i].phase.Fresh? || s.calls[i].phase.Done? ==> p == s.calls[i].phase
    ensures Own(s.Move(i, p))
  {}

  lemma OwnNewCall(s: System, c: Call)
    requires Own(s) && c.phase.Fresh?
    ensures Own(s.(calls := s.calls + [c]))
  {}

  lemma OwnTakeId(s: System, i: nat, t: System)
    requires Own(s) && DoTakeId(s, i) == Some(t)
    ensures Own(t)
  {}

  lemma OwnRegistered(s: System, i: nat, t: System)
    requires Own(s) && DoRegister(s, i) == Some(t) && s.table.pending.Some?
    ensures Own(t)
  {
    assert forall c | 0 <= c < |s.owners| :: s.owners[c] != i;
  }

  lemma {:induction false} OwnRegister(s: System, i: nat, t: System)
    requires Own(s) && DoRegister(s, i) == Some(t)
    ensures Own(t)
  {
    hide Own;
    if s.table.pending.Some? {
      OwnRegistered(s, i, t);
    } else {
      OwnMove(s, i, Done(Failed));
    }
  }

  /** A channel that is neither in the map nor in the reader's hands may change. */
  lemma OwnPut(s: System, c: nat, ch: Chan)
    requires Own(s) && c < |s.table.chans| && !s.table.Holds(c) && !(s.reader.Holding? && s.reader.chan == c)
    requires s.reader == Filled(c) ==> !ch.closed
    ensures Own(s.(table := s.table.Put(c, ch)))
  {}

  lemma OwnReceive(s: System, i: nat, t: System)
    requires Own(s) && DoReceive(s, i) == Some(t)
    ensures Own(t)
  {
    var c := s.calls[i].chan;
    var ch := s.table.chans[c];
    match ch.slot
    case Some(resp) =>
      OwnMove(s, i, Leaving(Answer(resp)));
      OwnPut(s.Move(i, Leaving(Answer(resp))), c, ch.(slot := None));
    case None =>
      OwnMove(s, i, Leaving(Failed));
  }

  lemma OwnCleanup(s: System, i: nat, t: System)
    requires Own(s) && DoCleanup(s, i) == Some(t)
    ensures Own(t)
  {
    OwnMove(s, i, t.calls[i].phase);
  }

  lemma OwnRead(s: System, t: System)
    requires Own(s) && DoRead(s) == Some(t)
    ensures Own(t)
  {}

  lemma OwnDeliver(s: System, t: System)
    requires Own(s) && (DoSend(s) == Some(t) || DoCloseChannel(s) == Some(t))
    ensures Own(t)
  {}

  lemma OwnDrain(s: System, t: System)
    requires Own(s) && DoDrain(s) == Some(t)
    ensures Own(t)
  {}

  lemma {:induction false} OwnStep(s: System, e: Event, t: System)
    requires Own(s) && Step(s, e) == Some(t)
    ensures Own(t)
  {
    hide DoTakeId, DoRegister, DoReceive, DoCleanup, DoRead, DoSend, DoCloseChannel, DoDrain, Table.Valid;
    match e
    case NewCall(job, params) => OwnNewCall(s, Call(job, params, 0, "", 0, Fresh));
    case TakeId(i) => OwnTakeId(s, i, t);
    case Register(i) => OwnRegister(s, i, t);
    case Receive(i) => OwnReceive(s, i, t);
    case Cleanup(i) => OwnCleanup(s, i, t);
    case ReadMessage => OwnRead(s, t);
    case SendToCaller => OwnDeliver(s, t);
    case CloseChannel => OwnDeliver(s, t);
    case CloseDrains => OwnDrain(s, t);
    case MarshalFails(i) => OwnMove(s, i, Done(Failed));
    case Enqueue(i) => OwnMove(s, i, Sent);
    case CancelSend(i) => OwnMove(s, i, Leaving(Failed));
    case AgentGone(i) => OwnMove(s, i, Leaving(Failed));
    case CancelWait(i) => OwnMove(s, i, Leaving(Failed));
    case _ => assert t.table == s.table && t.owners == s.owners && t.calls == s.calls && t.reader == s.reader;
  }

  // ---- what an event touches --------------------------------------------------------------------

  /** The event takes one call a step further without giving it an id or a channel. */
  predicate MovesCall(e: Event) {
    e.MarshalFails? || e.Enqueue? || e.CancelSend? || e.AgentGone? || e.Receive? || e.CancelWait? || e.Cleanup?
  }

  predicate TouchesCalls(e: Event) { e.NewCall? || e.TakeId? || e.Register? || MovesCall(e) }

  lemma ReceiveMoves(s: System, i: nat, t: System)
    requires DoReceive(s, i) == Some(t)
    ensures i < |s.calls| && s.calls[i].phase.Sent? && t.calls[i].phase.Leaving?
    ensures t.calls == s.Move(i, t.calls[i].phase).calls
  {}

  lemma CleanupMoves(s: System, i: nat, t: System)
    requires DoCleanup(s, i) == Some(t)
    ensures i < |s.calls| && s.calls[i].phase.Leaving? && t.calls[i].phase.Done?
    ensures t.calls == s.Move(i, t.calls[i].phase).calls
  {}

  lemma CallMoves(s: System, e: Event, t: System)
    requires Step(s, e) == Some(t) && MovesCall(e)
    ensures e.i < |s.calls| && !s.calls[e.i].phase.Fresh?
    ensures var p := t.calls[e.i].phase;
            t.calls == s.Move(e.i, p).calls && !p.Fresh? && !p.Numbered? && !p.Registered?
  {
    hide DoReceive, DoCleanup;
    match e
    case Receive(i) => ReceiveMoves(s, i, t);
    case Cleanup(i) => CleanupMoves(s, i, t);
    case MarshalFails(_) =>
    case Enqueue(_) =>
    case CancelSend(_) =>
    case AgentGone(_) =>
    case CancelWait(_) =>
  }

  lemma CallsStay(s: System, e: Event, t: System)
    requires Step(s, e) == Some(t) && !TouchesCalls(e)
    ensures t.calls == s.calls && t.owners == s.owners
  {
    hide DoTakeId, DoRegister, DoEnqueue, DoReceive, DoCleanup;
  }

  // ---- request ids -----------------------------------------------------------------------------

  /** Every call that has an id drew it in a turn of its own. */
  ghost predicate Ids(s: System) {
    && s.table.counter == s.issued % WORD
    && (forall i | 0 <= i < |s.calls| ::
        s.calls[i].turn <= s.issued && (s.calls[i].turn == 0 <==> s.calls[i].phase.Fresh?))
    && (forall i | 0 <= i < |s.calls| && s.calls[i].turn > 0 ::
          s.calls[i].id == RequestId(s.table.agent, s.calls[i].turn % WORD))
    && (forall i, j | 0 <= i < j < |s.calls| && s.calls[i].turn > 0 :: s.calls[i].turn != s.calls[j].turn)
  }

  lemma IdsTakeId(s: System, i: nat, t: System)
    requires Ids(s) && DoTakeId(s, i) == Some(t)
    ensures Ids(t)
  {
    assert (s.issued % WORD + 1) % WORD == (s.issued + 1) % WORD;
  }

  /** The calls of cs are still there in ds, with their ids; further calls are fresh. */
  ghost predicate SameIds(cs: seq<Call>, ds: seq<Call>) {
    && |ds| >= |cs|
    && (forall i | 0 <= i < |cs| ::
          ds[i].turn == cs[i].turn && ds[i].id == cs[i].id && (ds[i].phase.Fresh? <==> cs[i].phase.Fresh?))
    && (forall i | |cs| <= i < |ds| :: ds[i].turn == 0 && ds[i].phase.Fresh?)
  }

  lemma SameIdsMove(s: System, i: nat, p: Phase)
    requires i < |s.calls| && !s.calls[i].phase.Fresh? && !p.Fresh?
    ensures SameIds(s.calls, s.Move(i, p).calls)
  {}

  lemma SameIdsRegister(s: System, i: nat, t: System)
    requires DoRegister(s, i) == Some(t)
    ensures SameIds(s.calls, t.calls)
  {}

  lemma SameIdsStep(s: System, e: Event, t: System)
    requires Step(s, e) == Some(t) && !e.TakeId?
    ensures SameIds(s.calls, t.calls)
  {
    hide Step, DoRegister;
    if MovesCall(e) {
      CallMoves(s, e, t);
      SameIdsMove(s, e.i, t.calls[e.i].phase);
    } else if e.Register? {
      RegisterStep(s, e, t);
      SameIdsRegister(s, e.i, t);
    } else if e.NewCall? {
      NewCallStep(s, e, t);
    } else {
      CallsStay(s, e, t);
    }
  }

  lemma RegisterStep(s: System, e: Event, t: System)
    requires Step(s, e) == Some(t) && e.Register?
    ensures DoRegister(s, e.i) == Some(t)
  {
    hide DoRegister;
  }

  lemma NewCallStep(s: System, e: Event, t: System)
    requires Step(s, e) == Some(t) && e.NewCall?
    ensures t == s.(calls := s.calls + [Call(e.job, e.params, 0, "", 0, Fresh)])
  {}

  lemma SameCounterStep(s: System, e: Event, t: System)
    requires Step(s, e) == Some(t) && !e.TakeId?
    ensures t.issued == s.issued && t.table.counter == s.table.counter && t.table.agent == s.table.agent
  {}

  lemma {:induction false} IdsStep(s: System, e: Event, t: System)
    requires Ids(s) && Step(s, e) == Some(t)
    ensures Ids(t) && t.issued >= s.issued && t.table.agent == s.table.agent
  {
    if e.TakeId? {
      IdsTakeId(s, e.i, t);
    } else {
      SameIdsStep(s, e, t);
      SameCounterStep(s, e, t);
    }
  }

  lemma IdsDiffer(s: System, i: nat, j: nat)
    requires Ids(s) && s.issued <= WORD && i < |s.calls| && j < |s.calls| && i != j
    requires s.calls[i].turn > 0 && s.calls[j].turn > 0
    ensures s.calls[i].id != s.calls[j].id
  {
    RequestIdsCollide(s.table.agent, s.calls[i].turn, s.calls[j].turn);
  }

  // ---- every waiting call can be reached -------------------------------------------------------

  /** The caller is still in the map, or the reader is about to serve it, or it can receive at once. */
  ghost predicate Held(s: System, i: nat)
    requires i < |s.calls| && s.calls[i].chan < |s.table.chans|
  {
    var c := s.calls[i].chan;
    || s.table.Lookup(s.calls[i].id) == Some(c)
    || (s.reader.Holding? && s.reader.chan == c)
    || s.table.chans[c].slot.Some?
    || s.table.chans[c].closed
  }

  ghost predicate Live(s: System)
    requires Own(s)
  {
    && (s.closing == Closed <==> s.table.pending.None?)
    && (forall i | 0 <= i < |s.calls| && s.calls[i].Waits() :: Held(s, i))
  }

  ghost predicate Inv(s: System) { Own(s) && Ids(s) && s.issued <= WORD && Live(s) }

  lemma {:induction false} LiveRegister(s: System, i: nat, t: System)
    requires Inv(s) && DoRegister(s, i) == Some(t) && Own(t)
    ensures Live(t)
  {
    if s.table.pending.Some? {
      forall j | 0 <= j < |t.calls| && t.calls[j].Waits() ensures Held(t, j) {
        if j != i {
          IdsDiffer(s, i, j);
          assert Held(s, j) && t.calls[j] == s.calls[j];
        }
      }
    }
  }

  lemma LiveReceive(s: System, i: nat, t: System)
    requires Inv(s) && DoReceive(s, i) == Some(t) && Own(t)
    ensures Live(t)
  {
    forall j | 0 <= j < |t.calls| && t.calls[j].Waits() ensures Held(t, j) {
      assert j != i && Held(s, j) && t.calls[j] == s.calls[j];
      assert s.owners[s.calls[i].chan] == i && s.owners[s.calls[j].chan] == j;
    }
  }

  lemma RemoveOther(t: Table, id: string, id': string)
    requires id != id'
    ensures t.Remove(id).Lookup(id') == t.Lookup(id')
  {}

  lemma CleanupTable(s: System, i: nat, t: System)
    requires DoCleanup(s, i) == Some(t)
    ensures i < |s.calls| && s.calls[i].phase.Leaving? && t.table == s.table.Remove(s.calls[i].id)
    ensures t.reader == s.reader && t.closing == s.closing && t.table.chans == s.table.chans
    ensures t.table.pending.None? <==> s.table.pending.None?
  {}

  lemma {:induction false} LiveCleanup(s: System, i: nat, t: System)
    requires Inv(s) && DoCleanup(s, i) == Some(t) && Own(t)
    ensures Live(t)
  {
    hide DoCleanup, Table.Remove, Table.Lookup;
    CleanupMoves(s, i, t);
    CleanupTable(s, i, t);
    forall j | 0 <= j < |t.calls| && t.calls[j].Waits() ensures Held(t, j) {
      assert j != i && Held(s, j) && t.calls[j] == s.calls[j];
      IdsDiffer(s, i, j);
      RemoveOther(s.table, s.calls[i].id, s.calls[j].id);
    }
  }

  /** What the reader does to the map. */
  lemma ReadTable(s: System, t: System) returns (id: Option<string>)
    requires DoRead(s) == Some(t)
    ensures id == None ==> t.table == s.table
    ensures id.Some? ==>
              t.table == s.table.Remove(id.value) && t.reader.Holding? &&
                  s.table.Lookup(id.value) == Some(t.reader.chan)
    ensures s.reader == Idle && t.calls == s.calls && t.table.chans == s.table.chans && t.closing == s.closing
    ensures t.table.pending.None? <==> s.table.pending.None?
  {
    match s.wire[s.read]
    case Reply(Some(i), _, _) => id := if s.table.Lookup(i).Some? then Some(i) else None;
    case _ => id := None;
  }

  lemma LiveRead(s: System, t: System)
    requires Inv(s) && DoRead(s) == Some(t) && Own(t)
    ensures Live(t)
  {
    hide DoRead, Table.Remove, Table.Lookup;
    var id := ReadTable(s, t);
    forall j | 0 <= j < |t.calls| && t.calls[j].Waits() ensures Held(t, j) {
      assert Held(s, j);
      if id.Some? && s.calls[j].id != id.value {
        RemoveOther(s.table, id.value, s.calls[j].id);
      }
    }
  }

  lemma LiveDeliver(s: System, t: System)
    requires Inv(s) && (DoSend(s) == Some(t) || DoCloseChannel(s) == Some(t)) && Own(t)
    ensures Live(t)
  {
    forall j | 0 <= j < |t.calls| && t.calls[j].Waits() ensures Held(t, j) {
      assert Held(s, j);
    }
  }

  lemma LiveDrain(s: System, t: System)
    requires Inv(s) && DoDrain(s) == Some(t) && Own(t)
    ensures Live(t)
  {
    forall j | 0 <= j < |t.calls| && t.calls[j].Waits() ensures Held(t, j) {
      assert Held(s, j);
    }
  }

  lemma LiveMove(s: System, i: nat, p: Phase)
    requires Inv(s) && i < |s.calls| && (p.Registered? || p.Sent? ==> s.calls[i].Waits()) && Own(s.Move(i, p))
    ensures Live(s.Move(i, p))
  {
    var t := s.Move(i, p);
    forall j | 0 <= j < |t.calls| && t.calls[j].Waits() ensures Held(t, j) {
      assert Held(s, j);
    }
  }

  lemma LiveTakeId(s: System, i: nat, t: System)
    requires Inv(s) && DoTakeId(s, i) == Some(t) && Own(t)
    ensures Live(t)
  {
    forall j | 0 <= j < |t.calls| && t.calls[j].Waits() ensures Held(t, j) {
      assert j != i && Held(s, j);
    }
  }

  lemma LiveNewCall(s: System, c: Call)
    requires Inv(s) && c.phase.Fresh? && Own(s.(calls := s.calls + [c]))
    ensures Live(s.(calls := s.calls + [c]))
  {
    var t := s.(calls := s.calls + [c]);
    forall j | 0 <= j < |t.calls| && t.calls[j].Waits() ensures Held(t, j) {
      assert Held(s, j) && t.calls[j] == s.calls[j];
    }
  }

  lemma LiveFrame(s: System, t: System)
    requires Own(s) && Live(s) && Own(t)
    requires t.calls == s.calls && t.table == s.table && t.reader == s.reader
    requires t.closing == Closed <==> s.closing == Closed
    ensures Live(t)
  {
    forall j | 0 <= j < |t.calls| && t.calls[j].Waits() ensures Held(t, j) {
      assert Held(s, j);
    }
  }

  lemma {:induction false} LiveStep(s: System, e: Event, t: System)
    requires Inv(s) && Step(s, e) == Some(t) && Own(t)
    ensures Live(t)
  {
    hide Own, Ids, DoTakeId, DoRegister, DoReceive, DoCleanup, DoRead, DoSend, DoCloseChannel, DoDrain;
    match e
    case NewCall(job, params) => LiveNewCall(s, Call(job, params, 0, "", 0, Fresh));
    case TakeId(i) => LiveTakeId(s, i, t);
    case Register(i) => LiveRegister(s, i, t);
    case Receive(i) => LiveReceive(s, i, t);
    case Cleanup(i) => LiveCleanup(s, i, t);
    case ReadMessage => LiveRead(s, t);
    case SendToCaller => LiveDeliver(s, t);
    case CloseChannel => LiveDeliver(s, t);
    case CloseDrains => LiveDrain(s, t);
    case MarshalFails(i) => LiveMove(s, i, Done(Failed));
    case Enqueue(i) => OwnMove(s, i, Sent); LiveMove(s, i, Sent); LiveFrame(s.Move(i, Sent), t);
    case CancelSend(i) => LiveMove(s, i, Leaving(Failed));
    case AgentGone(i) => LiveMove(s, i, Leaving(Failed));
    case CancelWait(i) => LiveMove(s, i, Leaving(Failed));
    case _ => LiveFrame(s, t);
  }
}
