/** The main results about one agent connection, for every run. */
module RpcTheorems {
  import opened Text
  import opened PendingTable
  import opened RpcSystem
  import opened RpcProofs

  // ---- each channel leaves the map once --------------------------------------------------------

  function Exits(s: System, c: nat): nat {
    s.exits[(c, ByReader)] + s.exits[(c, ByClose)] + s.exits[(c, ByCaller)]
  }

  ghost predicate ExitsOnce(s: System) {
    forall c: nat :: Exits(s, c) == if c < |s.table.chans| && !s.table.Holds(c) then 1 else 0
  }

  lemma ExitsRegister(s: System, i: nat, t: System)
    requires Inv(s) && ExitsOnce(s) && DoRegister(s, i) == Some(t)
    ensures ExitsOnce(t)
  {
    if s.table.pending.Some? {
      var id, m := s.calls[i].id, s.table.pending.value;
      if id in m {
        IdsDiffer(s, i, s.owners[m[id]]);
        assert false;
      }
      forall c: nat ensures t.table.Holds(c) <==> s.table.Holds(c) || c == |s.table.chans| {
        if s.table.Holds(c) {
          var k :| k in m && m[k] == c;
          assert t.table.pending.value[k] == c;
        }
        assert t.table.pending.value[id] == |s.table.chans|;
      }
      assert !s.table.Holds(|s.table.chans|);
    }
  }

  lemma HoldsAfterRemove(t: Table, id: string, c: nat)
    requires t.Valid()
    ensures t.Remove(id).Holds(c) <==> t.Holds(c) && t.Lookup(id) != Some(c)
  {
    if t.Holds(c) && t.Lookup(id) != Some(c) {
      var k :| k in t.pending.value && t.pending.value[k] == c;
      assert k in t.Remove(id).pending.value;
    }
  }

  /** The channel of `id`, if any, leaves the map and is recorded. */
  lemma ExitsRemove(s: System, id: string, taker: Exit, t: System)
    requires s.table.Valid() && ExitsOnce(s)
    requires t.table.pending == s.table.Remove(id).pending && |t.table.chans| == |s.table.chans|
    requires var ch := s.table.Lookup(id);
             t.exits == if ch.Some? then s.exits + multiset{(ch.value, taker)} else s.exits
    ensures ExitsOnce(t)
  {
    forall c: nat ensures Exits(t, c) == if c < |t.table.chans| && !t.table.Holds(c) then 1 else 0 {
      HoldsAfterRemove(s.table, id, c);
      assert t.table.Holds(c) == s.table.Remove(id).Holds(c);
      assert Exits(s, c) == if c < |s.table.chans| && !s.table.Holds(c) then 1 else 0;
    }
  }

  lemma ExitsDrain(s: System, t: System)
    requires Inv(s) && ExitsOnce(s) && DoDrain(s) == Some(t)
    ensures ExitsOnce(t)
  {
    var took := set c | c in s.table.pending.value.Values :: (c, ByClose);
    forall c: nat ensures Exits(t, c) == if c < |t.table.chans| then 1 else 0 {
      assert Exits(s, c) == if c < |s.table.chans| && !s.table.Holds(c) then 1 else 0;
      assert (c, ByClose) in took <==> s.table.Holds(c);
      assert t.exits == s.exits + multiset(took);
    }
  }

  lemma ExitsFrame(s: System, t: System)
    requires ExitsOnce(s)
    requires t.table.pending == s.table.pending && |t.table.chans| == |s.table.chans| && t.exits == s.exits
    ensures ExitsOnce(t)
  {
    forall c: nat ensures Exits(t, c) == Exits(s, c) && t.table.Holds(c) == s.table.Holds(c) {}
  }

  lemma {:induction false} ExitsStep(s: System, e: Event, t: System)
    requires Inv(s) && ExitsOnce(s) && Step(s, e) == Some(t)
    ensures ExitsOnce(t)
  {
    hide Owners, ReaderOwns, Ids, Live, DoRegister, DoDrain;
    match e
    case Register(i) => ExitsRegister(s, i, t);
    case Cleanup(i) => ExitsRemove(s, s.calls[i].id, ByCaller, t);
    case ReadMessage =>
      if s.wire[s.read].Reply? && s.wire[s.read].id.Some? && s.table.Lookup(s.wire[s.read].id.value).Some? {
        ExitsRemove(s, s.wire[s.read].id.value, ByReader, t);
      } else {
        ExitsFrame(s, t);
      }
    case CloseDrains => ExitsDrain(s, t);
    case _ => ExitsFrame(s, t);
  }

  // ---- invariants over runs --------------------------------------------------------------------

  lemma {:induction false} RunKeepsOwn(s: System, es: seq<Event>, t: System)
    requires Own(s) && Run(s, es) == Some(t)
    ensures Own(t)
    decreases |es|
  {
    if es != [] {
      OwnStep(s, es[0], Step(s, es[0]).value);
      RunKeepsOwn(Step(s, es[0]).value, es[1..], t);
    }
  }

  lemma {:induction false} RunKeepsIds(s: System, es: seq<Event>, t: System)
    requires Ids(s) && Run(s, es) == Some(t)
    ensures Ids(t) && t.issued >= s.issued && t.table.agent == s.table.agent
    decreases |es|
  {
    if es != [] {
      IdsStep(s, es[0], Step(s, es[0]).value);
      RunKeepsIds(Step(s, es[0]).value, es[1..], t);
    }
  }

  lemma {:induction false} RunKeepsInv(s: System, es: seq<Event>, t: System)
    requires Inv(s) && ExitsOnce(s) && Run(s, es) == Some(t) && t.issued <= WORD
    ensures Inv(t) && ExitsOnce(t)
    decreases |es|
  {
    if es != [] {
      var u := Step(s, es[0]).value;
      OwnStep(s, es[0], u);
      IdsStep(s, es[0], u);
      RunKeepsIds(u, es[1..], t);
      LiveStep(s, es[0], u);
      ExitsStep(s, es[0], u);
      RunKeepsInv(u, es[1..], t);
    }
  }

  /** Single channel ownership: in every run, forged replies and wrapped-around ids included, the
      reader's send finds an empty open channel, its close finds an open one, and every channel that
      `Close` would meet in the map is open. Nothing blocks under the reader and nothing panics. */
  lemma NoPanic(agent: string, t: System)
    requires Reachable(agent, t)
    ensures t.reader.Holding? ==> Step(t, SendToCaller).Some?
    ensures t.reader.Filled? ==> Step(t, CloseChannel).Some?
    ensures forall c: nat | t.table.Holds(c) :: c < |t.table.chans| && !t.table.chans[c].closed
  {
    var es :| Run(Init(agent), es) == Some(t);
    RunKeepsOwn(Init(agent), es, t);
  }

  lemma ReachableInv(agent: string, t: System)
    requires Reachable(agent, t) && t.issued <= WORD
    ensures Inv(t) && ExitsOnce(t)
  {
    var es :| Run(Init(agent), es) == Some(t);
    RunKeepsInv(Init(agent), es, t);
  }

  /** A registered channel that is no longer in the map was taken out by exactly one of the reader,
      `Close` and the caller's own cleanup, and one that is in the map by none of them. */
  lemma OneExit(agent: string, t: System, c: nat)
    requires Reachable(agent, t) && t.issued <= WORD && c < |t.table.chans|
    ensures Exits(t, c) == if t.table.Holds(c) then 0 else 1
  {
    ReachableInv(agent, t);
  }

  ghost predicate NoCancel(es: seq<Event>) { forall e | e in es :: !e.CancelSend? && !e.CancelWait? }

  lemma RunTwo(s: System, a: Event, b: Event)
    requires Step(s, a).Some? && Step(Step(s, a).value, b).Some?
    ensures Run(s, [a, b]) == Step(Step(s, a).value, b)
  {
    var t := Step(s, a).value;
    assert [a, b][1..] == [b] && [b][1..] == [];
    assert Run(t, [b]) == Step(t, b);
  }

  lemma {:induction false} WaiterFinishes(t: System, i: nat) returns (es: seq<Event>)
    requires Inv(t) && i < |t.calls| && t.calls[i].phase.Sent?
    requires Step(t, Receive(i)).Some?
    ensures es == [Receive(i), Cleanup(i)]
    ensures t.calls[i].chan < |t.table.chans| && Run(t, es).Some?
    ensures Returned(Run(t, es).value, i, t.table.chans[t.calls[i].chan].slot)
  {
    hide Own, Ids, Live;
    es := [Receive(i), Cleanup(i)];
    RunTwo(t, Receive(i), Cleanup(i));
  }

  lemma {:induction false} HeldByReaderFinishes(t: System, i: nat) returns (es: seq<Event>)
    requires Inv(t) && i < |t.calls| && t.calls[i].phase.Sent?
    requires t.reader.Holding? && t.reader.chan == t.calls[i].chan
    ensures es == [SendToCaller, Receive(i), Cleanup(i)]
    ensures Run(t, es).Some? && Returned(Run(t, es).value, i, Some(t.reader.resp))
  {
    hide Ids, Live;
    var u := DoSend(t).value;
    es := [SendToCaller, Receive(i), Cleanup(i)];
    assert es[1..] == [Receive(i), Cleanup(i)];
    RunTwo(u, Receive(i), Cleanup(i));
  }

  // ---- Close ------------------------------------------------------------------------------------

  /** The map is gone exactly when `Close` has finished. */
  ghost predicate MapGone(s: System) { s.closing == Closed <==> s.table.pending.None? }

  lemma MapGoneStep(s: System, e: Event, t: System)
    requires MapGone(s) && Step(s, e) == Some(t)
    ensures MapGone(t)
  {}

  lemma {:induction false} RunKeepsMapGone(s: System, es: seq<Event>, t: System)
    requires MapGone(s) && Run(s, es) == Some(t)
    ensures MapGone(t)
    decreases |es|
  {
    hide MapGone, Step;
    if es != [] {
      MapGoneStep(s, es[0], Step(s, es[0]).value);
      RunKeepsMapGone(Step(s, es[0]).value, es[1..], t);
    }
  }

  /** What is left to do of `Close`. */
  function Rest(closing: Closing): seq<Event> {
    match closing
    case Open => [CloseBegins, CloseUnregisters, CloseDrains]
    case DoneClosed => [CloseUnregisters, CloseDrains]
    case Unregistered => [CloseDrains]
    case _ => []
  }

  /** `Close` can begin at any time and each step of it is possible, whatever is pending; in the end the map is gone,
      every channel that was in it is closed, and nothing else has changed. */
  lemma CloseFinishes(agent: string, t: System) returns (u: System)
    requires Reachable(agent, t)
    ensures Run(t, Rest(t.closing)) == Some(u) && u.closing == Closed && u.table.pending == None
    ensures |u.table.chans| == |t.table.chans|
    ensures forall c: nat | c < |t.table.chans| ::
              u.table.chans[c] == Chan(t.table.chans[c].slot, t.table.chans[c].closed || t.table.Holds(c))
    ensures u == t.(table := u.table, exits := u.exits, closing := Closed)
    ensures u.table.counter == t.table.counter && u.table.agent == t.table.agent
  {
    var es :| Run(Init(agent), es) == Some(t);
    RunKeepsMapGone(Init(agent), es, t);
    hide MapGone;
    match t.closing
    case Closed => u := Drained(t);
    case Unregistered => u := Drained(t);
    case DoneClosed =>
      var v := t.(closing := Unregistered);
      u := Drained(v);
      assert [CloseUnregisters, CloseDrains][1..] == [CloseDrains];
    case Open =>
      var v := t.(closing := DoneClosed);
      var w := v.(closing := Unregistered);
      u := Drained(w);
      assert [CloseBegins, CloseUnregisters, CloseDrains][1..] == [CloseUnregisters, CloseDrains];
      assert [CloseUnregisters, CloseDrains][1..] == [CloseDrains];
  }

  /** The last section of `Close`. */
  lemma Drained(t: System) returns (u: System)
    requires t.closing == Unregistered || (t.closing == Closed && t.table.pending == None)
    ensures Run(t, Rest(t.closing)) == Some(u) && u.closing == Closed && u.table.pending == None
    ensures |u.table.chans| == |t.table.chans|
    ensures forall c: nat | c < |t.table.chans| ::
              u.table.chans[c] == Chan(t.table.chans[c].slot, t.table.chans[c].closed || t.table.Holds(c))
    ensures u == t.(table := u.table, exits := u.exits, closing := Closed)
    ensures u.table.counter == t.table.counter && u.table.agent == t.table.agent
  {
    if t.closing == Closed {
      u := t;
    } else {
      u := Step(t, CloseDrains).value;
      assert [CloseDrains][1..] == [];
    }
  }

  /** The answer that waits for call i, or that the reader is about to give it. */
  function Ready(s: System, i: nat): Option<Response>
    requires i < |s.calls| && s.calls[i].chan < |s.table.chans|
  {
    var c := s.calls[i].chan;
    if s.reader.Holding? && s.reader.chan == c then Some(s.reader.resp) else s.table.chans[c].slot
  }

  /** The call has returned: with its answer if there is one, and otherwise with an error. */
  ghost predicate Returned(t: System, i: nat, answer: Option<Response>) {
    i < |t.calls| && t.calls[i].phase == Done(match answer case Some(resp) => Answer(resp) case None => Failed)
  }

  lemma AfterClose(t: System, i: nat) returns (es: seq<Event>)
    requires Inv(t) && t.closing == Closed && i < |t.calls| && t.calls[i].Waits()
    ensures NoCancel(es) && |es| <= 3 && Run(t, es).Some?
    ensures Returned(Run(t, es).value, i, if t.calls[i].phase.Sent? then Ready(t, i) else None)
  {
    if t.calls[i].phase.Registered? {
      es := [AgentGone(i), Cleanup(i)];
      RunTwo(t, AgentGone(i), Cleanup(i));
    } else {
      assert Held(t, i);
      if t.reader.Holding? && t.reader.chan == t.calls[i].chan {
        es := HeldByReaderFinishes(t, i);
      } else {
        es := WaiterFinishes(t, i);
      }
    }
  }

  /** No stranded caller: from the moment `Close` begins, every call past registration can return without its context
      being cancelled, within five further events of its own, the reader's and of `Close`: with its answer if the
      reader has it, and otherwise with an error. */
  lemma NoStrandedCaller(agent: string, t: System, i: nat) returns (es: seq<Event>)
    requires Reachable(agent, t) && t.issued <= WORD && t.closing != Open
    requires i < |t.calls| && t.calls[i].Waits()
    ensures t.calls[i].chan < |t.table.chans|
    ensures NoCancel(es) && |es| <= 5 && Run(t, es).Some?
    ensures Returned(Run(t, es).value, i, if t.calls[i].phase.Sent? then Ready(t, i) else None)
  {
    hide Run, Inv, Step;
    ReachableInv(agent, t);
    var u := CloseFinishes(agent, t);
    var before :| Run(Init(agent), before) == Some(t);
    RunAppend(Init(agent), before, Rest(t.closing));
    assert Reachable(agent, u);
    ReachableInv(agent, u);
    ChanKnown(t, i);
    var after := AfterClose(u, i);
    RunAppend(t, Rest(t.closing), after);
    es := Rest(t.closing) + after;
  }

  lemma ChanKnown(t: System, i: nat)
    requires Inv(t) && i < |t.calls| && t.calls[i].Waits()
    ensures t.calls[i].chan < |t.table.chans|
  {}

  /** A call that is returning can always finish. */
  lemma LeavingFinishes(t: System, i: nat)
    requires i < |t.calls| && t.calls[i].phase.Leaving?
    ensures Step(t, Cleanup(i)).Some? && Step(t, Cleanup(i)).value.At(i, Done(t.calls[i].phase.result))
  {}

  /** A cancelled context ends every call past registration with an error, at any time. */
  lemma CancelEnds(agent: string, t: System, i: nat) returns (es: seq<Event>)
    requires Reachable(agent, t) && i < |t.calls| && t.calls[i].Waits()
    ensures |es| == 2 && (es[0].CancelSend? || es[0].CancelWait?) && es[0].i == i && es[1] == Cleanup(i)
    ensures Run(t, es).Some? && Run(t, es).value.At(i, Done(Failed))
  {
    es := [if t.calls[i].phase.Sent? then CancelWait(i) else CancelSend(i), Cleanup(i)];
    RunTwo(t, es[0], Cleanup(i));
  }

  lemma OwnAtStart(agent: string)
    ensures Own(Init(agent))
  {}

  lemma SentKnown(t: System, i: nat)
    requires Own(t) && t.At(i, Sent)
    ensures t.calls[i].chan < |t.table.chans|
  {}

  /** What a call can do next, in every phase: a frame is queued exactly while there is room, a gone connection is
      noticed exactly from the moment `Close` begins, and a call waits no longer exactly when its channel has an answer
      or is closed. */
  lemma CallsGoOn(agent: string, t: System, i: nat)
    requires Reachable(agent, t) && i < |t.calls|
    ensures t.At(i, Fresh) ==> Step(t, TakeId(i)).Some?
    ensures t.At(i, Numbered) ==>
              Step(t, Register(i)).Some? && Step(t, MarshalFails(i)) == Some(t.Move(i, Done(Failed)))
    ensures t.At(i, Registered) ==> (Step(t, Enqueue(i)).Some? <==> |t.sent| < t.written + 256) &&
                                    (Step(t, AgentGone(i)).Some? <==> t.closing != Open)
    ensures t.At(i, Sent) ==>
              var c := t.calls[i].chan;
              && c < |t.table.chans|
              && (Step(t, Receive(i)).Some? <==> t.table.chans[c].slot.Some? || t.table.chans[c].closed)
  {
    hide Own;
    var es :| Run(Init(agent), es) == Some(t);
    OwnAtStart(agent);
    RunKeepsOwn(Init(agent), es, t);
    if t.At(i, Sent) {
      SentKnown(t, i);
    }
  }

  /** The write queue never holds more than 256 messages. */
  lemma {:induction false} RunKeepsBound(s: System, es: seq<Event>, t: System)
    requires s.written <= |s.sent| <= s.written + 256 && Run(s, es) == Some(t)
    ensures t.written <= |t.sent| <= t.written + 256
    decreases |es|
  {
    if es != [] {
      BoundStep(s, es[0], Step(s, es[0]).value);
      RunKeepsBound(Step(s, es[0]).value, es[1..], t);
    }
  }

  lemma BoundStep(s: System, e: Event, t: System)
    requires s.written <= |s.sent| <= s.written + 256 && Step(s, e) == Some(t)
    ensures t.written <= |t.sent| <= t.written + 256
  {}

  lemma QueueBounded(agent: string, t: System)
    requires Reachable(agent, t)
    ensures t.written <= |t.sent| <= t.written + 256
  {
    var es :| Run(Init(agent), es) == Some(t);
    RunKeepsBound(Init(agent), es, t);
  }

  // ---- every call can be answered ---------------------------------------------------------------

  /** The channel of a waiting call is not closed before its answer is in it, unless `Close` has been there. */
  ghost predicate Prompt(s: System) {
    forall i | 0 <= i < |s.calls| && s.calls[i].Waits() ::
      var c := s.calls[i].chan;
      && c < |s.table.chans|
      && ((s.table.chans[c].closed || s.reader == Filled(c)) && s.closing != Closed ==> s.table.chans[c].slot.Some?)
  }

  lemma PromptStays(s: System, t: System)
    requires Prompt(s) && t.table.chans == s.table.chans && (t.closing == Closed || s.closing != Closed)
    requires t.reader == s.reader || !t.reader.Filled?
    requires |t.calls| >= |s.calls|
    requires forall i | 0 <= i < |s.calls| && t.calls[i].Waits() ::
            s.calls[i].Waits() && t.calls[i].chan == s.calls[i].chan
    requires forall i | |s.calls| <= i < |t.calls| :: !t.calls[i].Waits()
    ensures Prompt(t)
  {}

  lemma PromptRegister(s: System, i: nat, t: System)
    requires Own(s) && Prompt(s) && DoRegister(s, i) == Some(t)
    ensures Prompt(t)
  {}

  lemma PromptReceive(s: System, i: nat, t: System)
    requires Own(s) && Prompt(s) && DoReceive(s, i) == Some(t)
    ensures Prompt(t)
  {
    forall j | 0 <= j < |t.calls| && t.calls[j].Waits()
      ensures t.calls[j].chan != s.calls[i].chan && t.calls[j] == s.calls[j]
    {
      assert s.owners[s.calls[i].chan] == i && s.owners[s.calls[j].chan] == j;
    }
  }

  lemma PromptSend(s: System, t: System)
    requires Own(s) && Prompt(s) && DoSend(s) == Some(t)
    ensures Prompt(t)
  {}

  lemma PromptClose(s: System, t: System)
    requires Own(s) && Prompt(s) && DoCloseChannel(s) == Some(t)
    ensures Prompt(t)
  {}

  lemma PromptDrain(s: System, t: System)
    requires Own(s) && Prompt(s) && DoDrain(s) == Some(t)
    ensures Prompt(t)
  {}

  lemma PromptStep(s: System, e: Event, t: System)
    requires Own(s) && Prompt(s) && Step(s, e) == Some(t)
    ensures Prompt(t)
  {
    hide Own, Prompt, DoRegister, DoReceive, DoSend, DoCloseChannel, DoDrain, DoTakeId, DoCleanup;
    match e
    case Register(i) => PromptRegister(s, i, t);
    case Receive(i) => PromptReceive(s, i, t);
    case SendToCaller => PromptSend(s, t);
    case CloseChannel => PromptClose(s, t);
    case CloseDrains => PromptDrain(s, t);
    case Cleanup(i) => PromptCleanup(s, i, t);
    case TakeId(i) => PromptTakeId(s, i, t);
    case _ => PromptOther(s, e, t);
  }

  lemma PromptOther(s: System, e: Event, t: System)
    requires Prompt(s) && Step(s, e) == Some(t)
    requires !(e.TakeId? || e.Register? || e.Receive? || e.Cleanup?)
    requires !(e.SendToCaller? || e.CloseChannel? || e.CloseDrains?)
    ensures Prompt(t)
  {
    hide Prompt, DoRegister, DoReceive, DoSend, DoCloseChannel, DoDrain, DoTakeId, DoCleanup;
    PromptStays(s, t);
  }

  lemma PromptCleanup(s: System, i: nat, t: System)
    requires Prompt(s) && DoCleanup(s, i) == Some(t)
    ensures Prompt(t)
  {}

  lemma PromptTakeId(s: System, i: nat, t: System)
    requires Prompt(s) && DoTakeId(s, i) == Some(t)
    ensures Prompt(t)
  {}

  lemma {:induction false} RunKeepsPrompt(s: System, es: seq<Event>, t: System)
    requires Own(s) && Prompt(s) && Run(s, es) == Some(t)
    ensures Prompt(t)
    decreases |es|
  {
    hide Own, Prompt, Step;
    if es != [] {
      var u := Step(s, es[0]).value;
      OwnStep(s, es[0], u);
      PromptStep(s, es[0], u);
      RunKeepsPrompt(u, es[1..], t);
    }
  }

  /** What the writer, the agent and the reader do by themselves. */
  predicate Works(e: Event) {
    e.Write? || e.StartHandler? || e.FinishHandler? || e.ReadMessage? || e.SendToCaller? || e.CloseChannel?
  }

  ghost predicate Working(es: seq<Event>) { forall e | e in es :: Works(e) }

  /** Calls, ids and `Close` are where they were; logs have only grown. */
  ghost predicate Aside(s: System, t: System) {
    && t.calls == s.calls && t.closing == s.closing && t.issued == s.issued
    && s.sent <= t.sent && s.wire <= t.wire && s.read <= t.read && |s.handlers| <= |t.handlers|
  }

  lemma WorkStep(s: System, e: Event, t: System)
    requires Step(s, e) == Some(t) && Works(e)
    ensures Aside(s, t)
  {}

  /** One step of work. */
  lemma Work(s: System, e: Event) returns (es: seq<Event>, t: System)
    requires Inv(s) && Prompt(s) && Works(e) && Step(s, e).Some?
    ensures es == [e] && Working(es) && Run(s, es) == Some(t) == Step(s, e) && Inv(t) && Prompt(t) && Aside(s, t)
  {
    hide Own, Prompt, Step, Ids, Live, Aside, Works;
    t := Step(s, e).value;
    es := [e];
    assert es[1..] == [];
    OwnStep(s, e, t);
    IdsStep(s, e, t);
    LiveStep(s, e, t);
    PromptStep(s, e, t);
    WorkStep(s, e, t);
    AsideCounts(s, t);
  }

  lemma AsideCounts(s: System, t: System)
    requires Aside(s, t)
    ensures t.issued == s.issued
  {}

  lemma Then(s: System, es: seq<Event>, t: System, fs: seq<Event>, u: System)
    requires Working(es) && Run(s, es) == Some(t) && Aside(s, t)
    requires Working(fs) && Run(t, fs) == Some(u) && Aside(t, u)
    ensures Working(es + fs) && Run(s, es + fs) == Some(u) && Aside(s, u)
  {
    hide Step, Works;
    RunAppend(s, es, fs);
  }

  /** The writer gets to frame k. */
  lemma {:induction false} WritesUpTo(s: System, k: nat) returns (es: seq<Event>, t: System)
    requires Inv(s) && Prompt(s) && k < |s.sent|
    ensures Working(es) && Run(s, es) == Some(t) && Inv(t) && Prompt(t) && Aside(s, t)
    ensures k < t.written && t == s.(written := t.written)
    decreases k + 1 - s.written
  {
    hide Inv, Prompt, Run;
    if k < s.written {
      es, t := [], s;
      RunNone(s);
    } else {
      var es1, u := Work(s, Write);
      assert u == s.(written := s.written + 1);
      var es2;
      es2, t := WritesUpTo(u, k);
      Then(s, es1, u, es2, t);
      es := es1 + es2;
    }
  }

  lemma RunNone(s: System)
    ensures Run(s, []) == Some(s)
  {}

  /** The agent starts to handle it. */
  lemma {:induction false} StartsUpTo(s: System, k: nat) returns (es: seq<Event>, t: System)
    requires Inv(s) && Prompt(s) && k < s.written
    ensures Working(es) && Run(s, es) == Some(t) && Inv(t) && Prompt(t) && Aside(s, t)
    ensures k < |t.handlers| && t == s.(handlers := t.handlers)
    ensures k < |s.handlers| ==> t.handlers[k] == s.handlers[k]
    ensures k >= |s.handlers| ==> t.handlers[k] == None
    decreases k + 1 - |s.handlers|
  {
    hide Inv, Prompt, Run;
    if k < |s.handlers| {
      es, t := [], s;
      RunNone(s);
    } else {
      var es1, u := Work(s, StartHandler);
      assert u == s.(handlers := s.handlers + [None]);
      var es2;
      es2, t := StartsUpTo(u, k);
      Then(s, es1, u, es2, t);
      es := es1 + es2;
    }
  }

  /** The reader finishes with the channel in its hands. */
  lemma ReaderFinishes(s: System) returns (es: seq<Event>, t: System)
    requires Inv(s) && Prompt(s)
    ensures Working(es) && Run(s, es) == Some(t) && Inv(t) && Prompt(t) && Aside(s, t)
    ensures t.reader == Idle && t.table.pending == s.table.pending && t.wire == s.wire && t.read == s.read
  {
    hide Prompt, Run, Ids, Live;
    if s.reader.Idle? {
      es, t := [], s;
      RunNone(s);
    } else if s.reader.Filled? {
      es, t := Work(s, CloseChannel);
    } else {
      var es1, u := Work(s, SendToCaller);
      assert u.reader == Filled(s.reader.chan);
      var es2;
      es2, t := Work(u, CloseChannel);
      Then(s, es1, u, es2, t);
      es := es1 + es2;
    }
  }

  /** The reader takes the next message and finishes with it. If it is a reply, no call waits in the map under its id
      any more. */
  lemma ReadsOne(s: System) returns (es: seq<Event>, t: System)
    requires Inv(s) && Prompt(s) && s.reader == Idle && s.read < |s.wire|
    ensures Working(es) && Run(s, es) == Some(t) && Inv(t) && Prompt(t) && Aside(s, t)
    ensures t.reader == Idle && t.read == s.read + 1 && t.wire == s.wire
    ensures s.wire[s.read].Reply? && s.wire[s.read].id.Some? ==> t.table.Lookup(s.wire[s.read].id.value) == None
  {
    hide Prompt, Run, Inv;
    var es1, u := Work(s, ReadMessage);
    assert u.read == s.read + 1 && u.wire == s.wire;
    assert s.wire[s.read].Reply? && s.wire[s.read].id.Some? ==> u.table.Lookup(s.wire[s.read].id.value) == None;
    var es2;
    es2, t := ReaderFinishes(u);
    Then(s, es1, u, es2, t);
    es := es1 + es2;
  }

  /** The reader gets to message m. */
  lemma {:induction false} ReadsUpTo(s: System, m: nat) returns (es: seq<Event>, t: System)
    requires Inv(s) && Prompt(s) && s.reader == Idle && s.read <= m < |s.wire|
    ensures Working(es) && Run(s, es) == Some(t) && Inv(t) && Prompt(t) && Aside(s, t) && t.reader == Idle
    ensures s.wire[m].Reply? && s.wire[m].id.Some? ==> t.table.Lookup(s.wire[m].id.value) == None
    decreases m - s.read
  {
    hide Prompt, Run, Inv, Table.Lookup;
    var es1, u := ReadsOne(s);
    if s.read == m {
      es, t := es1, u;
    } else {
      var es2;
      es2, t := ReadsUpTo(u, m);
      Then(s, es1, u, es2, t);
      es := es1 + es2;
    }
  }

  /** The frame of a call is in the write log and its handler has not finished. */
  ghost predicate Unanswered(s: System, i: nat, k: nat) {
    && i < |s.calls| && s.calls[i].phase.Sent? && k < |s.sent| && s.sent[k].request && s.sent[k].id == s.calls[i].id
    && (k < |s.handlers| ==> s.handlers[k].None?)
  }

  /** The handler of frame k finishes and its reply is read. */
  lemma AnswerIsRead(s: System, i: nat, k: nat, body: string) returns (es: seq<Event>, t: System)
    requires Inv(s) && Prompt(s) && s.read <= |s.wire| && Unanswered(s, i, k)
    ensures Working(es) && Run(s, es) == Some(t) && Inv(t) && Prompt(t) && Aside(s, t)
    ensures t.reader == Idle && t.table.Lookup(s.calls[i].id) == None
  {
    hide Inv, Prompt, Run, Table.Lookup;
    var es1, a := WritesUpTo(s, k);
    var es2, b := StartsUpTo(a, k);
    Then(s, es1, a, es2, b);
    var es3, c := Work(b, FinishHandler(k, body));
    assert c == DoFinish(b, k, body).value;
    assert c.wire == s.wire + [Reply(Some(s.calls[i].id), body, k)];
    Then(s, es1 + es2, b, es3, c);
    var es4, d := ReaderFinishes(c);
    Then(s, es1 + es2 + es3, c, es4, d);
    var es5, u := ReadsUpTo(d, |s.wire|);
    Then(s, es1 + es2 + es3 + es4, d, es5, u);
    es, t := es1 + es2 + es3 + es4 + es5, u;
  }

  /** The reader stays within the wire. */
  lemma {:induction false} RunKeepsRead(s: System, es: seq<Event>, t: System)
    requires s.read <= |s.wire| && Run(s, es) == Some(t)
    ensures t.read <= |t.wire|
    decreases |es|
  {
    if es != [] {
      ReadStep(s, es[0], Step(s, es[0]).value);
      RunKeepsRead(Step(s, es[0]).value, es[1..], t);
    }
  }

  lemma ReadStep(s: System, e: Event, t: System)
    requires s.read <= |s.wire| && Step(s, e) == Some(t)
    ensures t.read <= |t.wire|
  {}

  lemma InitPrompt(agent: string)
    ensures Own(Init(agent)) && Prompt(Init(agent))
  {}

  lemma SlotReady(t: System, i: nat)
    requires Inv(t) && Prompt(t) && t.closing != Closed && i < |t.calls| && t.calls[i].phase.Sent?
    requires t.reader == Idle && t.table.Lookup(t.calls[i].id) == None
    ensures t.calls[i].chan < |t.table.chans| && t.table.chans[t.calls[i].chan].slot.Some? && Step(t, Receive(i)).Some?
  {
    assert Held(t, i);
  }

  /** Every call can be answered: as long as `Close` has not finished and the handler of its frame is still at work,
      the writer, the agent and the reader can go on by themselves to the point where the call returns an answer. */
  lemma {:induction false} CallCompletes(agent: string, t: System, i: nat, k: nat, body: string)
    returns (es: seq<Event>, resp: Response)
    requires Reachable(agent, t) && t.issued <= WORD && t.closing != Closed && Unanswered(t, i, k)
    ensures Working(es)
    ensures var all := es + [Receive(i), Cleanup(i)]; Run(t, all).Some? && Returned(Run(t, all).value, i, Some(resp))
  {
    hide Inv, Prompt, Step, Table.Lookup;
    ReachableInv(agent, t);
    var before :| Run(Init(agent), before) == Some(t);
    InitPrompt(agent);
    RunKeepsPrompt(Init(agent), before, t);
    RunKeepsRead(Init(agent), before, t);
    var u;
    es, u := AnswerIsRead(t, i, k, body);
    SlotReady(u, i);
    resp := u.table.chans[u.calls[i].chan].slot.value;
    var last := WaiterFinishes(u, i);
    RunAppend(t, es, last);
  }

  /** After `Close` no call gets into the map any more: registration ends the call with an error. */
  lemma NoLateRegistration(agent: string, t: System, i: nat)
    requires Reachable(agent, t) && t.issued <= WORD && t.closing == Closed && t.At(i, Numbered)
    ensures Step(t, Register(i)).Some?
    ensures var u := Step(t, Register(i)).value;
            u.At(i, Done(Failed)) && u.table.chans == t.table.chans && forall c: nat :: !u.table.Holds(c)
  {
    ReachableInv(agent, t);
  }

  // ---- correlation -----------------------------------------------------------------------------

  /** `resp` is what the agent's handler computed for the frame that call i sent. */
  ghost predicate Genuine(s: System, i: nat, resp: Response) {
    && i < |s.calls| && resp.handler < |s.handlers| <= |s.sent|
    && s.handlers[resp.handler] == Some(resp.body)
    && s.sent[resp.handler] == Frame(s.calls[i].id, s.calls[i].job, s.calls[i].params, true, FromCall(i))
    && resp.id == s.calls[i].id
  }

  ghost predicate Framed(s: System, f: Frame) {
    match f.origin
    case FromCall(i) =>
      && i < |s.calls| && s.calls[i].turn > 0 && !s.calls[i].phase.Numbered? && !s.calls[i].phase.Registered?
      && f == Frame(s.calls[i].id, s.calls[i].job, s.calls[i].params, true, FromCall(i))
    case Notice(kind, stamp) => f.id == RequestId(kind.Prefix(), stamp)
    case Confirmation => !f.request
  }

  /** Frames in the write log are what their senders put there, each call at most once. */
  ghost predicate Frames(s: System) {
    && |s.handlers| <= s.written <= |s.sent|
    && (forall k | 0 <= k < |s.sent| :: Framed(s, s.sent[k]))
    && (forall k, l | 0 <= k < l < |s.sent| && s.sent[k].origin.FromCall? :: s.sent[k].origin != s.sent[l].origin)
  }

  /** Replies on the wire were computed by the handler they name. */
  ghost predicate Replies(s: System)
    requires Frames(s)
  {
    forall k | 0 <= k < |s.wire| && s.wire[k].Reply? ::
      var r := s.wire[k];
      && r.handler < |s.handlers| && s.handlers[r.handler] == Some(r.body)
      && s.sent[r.handler].request && r.id == Some(s.sent[r.handler].id)
  }

  ghost predicate Genuines(s: System)
    requires Own(s)
  {
    && (s.reader.Holding? ==> Genuine(s, s.owners[s.reader.chan], s.reader.resp))
    && (forall c | 0 <= c < |s.table.chans| && s.table.chans[c].slot.Some? ::
          Genuine(s, s.owners[c], s.table.chans[c].slot.value))
    && (forall i | 0 <= i < |s.calls| && s.calls[i].Returns().Some? :: Genuine(s, i, s.calls[i].Returns().value))
  }

  ghost predicate Traffic(s: System) { Frames(s) && Replies(s) && Own(s) && Genuines(s) }

  /** No notice has the agent's id as its prefix. */
  predicate PlainAgent(agent: string) { agent != "sync" && agent != "failover" }

  /** With notices stamped `clock` or later and at most `limit` requests, no request can have the number of a
      notice. */
  predicate Clear(clock: nat, limit: nat) { limit == 0 || limit < clock || WORD <= clock }

  /** The notices in the write log are stamped `clock` or later. */
  ghost predicate NoticesFrom(s: System, clock: nat) {
    forall f | f in s.sent && f.origin.Notice? :: clock <= f.origin.stamp
  }

  /** Notices and requests have different ids. */
  ghost predicate Apart(s: System, clock: nat, limit: nat) {
    s.issued <= limit <= WORD && NoticesFrom(s, clock) && (PlainAgent(s.table.agent) || Clear(clock, limit))
  }

  lemma NoticeIdsApart(agent: string, kind: NoticeKind, stamp: nat, n: nat)
    requires PlainAgent(agent) || stamp != n
    ensures RequestId(kind.Prefix(), stamp) != RequestId(agent, n)
  {
    SuffixInjective(kind.Prefix(), agent, stamp, n);
  }

  /** Past the point where the call puts its frame into the queue. */
  ghost predicate Past(c: Call) { c.turn > 0 && !c.phase.Numbered? && !c.phase.Registered? }

  /** t continues s: the logs grow and answers stay. */
  ghost predicate LogsExtend(s: System, t: System) {
    && s.sent <= t.sent && |s.handlers| <= |t.handlers| <= t.written <= |t.sent|
    && (forall h | 0 <= h < |s.handlers| && s.handlers[h].Some? :: t.handlers[h] == s.handlers[h])
  }

  /** Calls keep what they were asked to do and do not go back. */
  ghost predicate CallsExtend(cs: seq<Call>, ds: seq<Call>) {
    && |cs| <= |ds|
    && (forall i | 0 <= i < |cs| && cs[i].turn > 0 ::
          && ds[i].id == cs[i].id && ds[i].job == cs[i].job && ds[i].params == cs[i].params
          && ds[i].turn == cs[i].turn && (Past(cs[i]) ==> Past(ds[i])))
  }

  ghost predicate Extends(s: System, t: System) { LogsExtend(s, t) && CallsExtend(s.calls, t.calls) }

  lemma MoveExtends(s: System, i: nat, p: Phase)
    requires i < |s.calls| && !p.Numbered? && !p.Registered?
    ensures CallsExtend(s.calls, s.Move(i, p).calls)
  {}

  lemma TakeIdExtends(s: System, i: nat, t: System)
    requires Ids(s) && DoTakeId(s, i) == Some(t)
    ensures CallsExtend(s.calls, t.calls)
  {}

  lemma RegisterExtends(s: System, i: nat, t: System)
    requires DoRegister(s, i) == Some(t)
    ensures CallsExtend(s.calls, t.calls)
  {}

  lemma {:induction false} StepCallsExtend(s: System, e: Event, t: System)
    requires Ids(s) && Step(s, e) == Some(t)
    ensures CallsExtend(s.calls, t.calls)
  {
    hide Step, Ids, DoRegister, DoTakeId;
    if MovesCall(e) {
      CallMoves(s, e, t);
      MoveExtends(s, e.i, t.calls[e.i].phase);
    } else if e.Register? {
      RegisterStep(s, e, t);
      RegisterExtends(s, e.i, t);
    } else if e.TakeId? {
      TakeIdStep(s, e, t);
      TakeIdExtends(s, e.i, t);
    } else if e.NewCall? {
      NewCallStep(s, e, t);
    } else {
      CallsStay(s, e, t);
    }
  }

  lemma TakeIdStep(s: System, e: Event, t: System)
    requires Step(s, e) == Some(t) && e.TakeId?
    ensures DoTakeId(s, e.i) == Some(t)
  {
    hide DoTakeId;
  }

  lemma StepLogsExtend(s: System, e: Event, t: System)
    requires Frames(s) && Step(s, e) == Some(t)
    ensures LogsExtend(s, t)
  {
    match e
    case Enqueue(i) =>
    case PushNotice(_, _, _) =>
    case ReadMessage =>
    case FinishHandler(h, body) =>
    case Receive(i) =>
    case Cleanup(i) =>
    case Write =>
    case StartHandler =>
    case _ => assert t.sent == s.sent && t.handlers == s.handlers && t.written == s.written;
  }

  lemma GenuineStays(s: System, t: System, i: nat, resp: Response)
    requires Extends(s, t) && Genuine(s, i, resp) && s.calls[i].turn > 0
    ensures Genuine(t, i, resp)
  {}

  lemma FramesAppend(s: System, t: System, f: Frame)
    requires Frames(s) && Extends(s, t) && t.sent == s.sent + [f] && Framed(t, f)
    requires f.origin.FromCall? ==> f.origin.call < |s.calls| && s.calls[f.origin.call].phase.Registered?
    ensures Frames(t)
  {
    forall k | 0 <= k < |s.sent|
      ensures Framed(t, t.sent[k]) && (t.sent[k].origin.FromCall? ==> t.sent[k].origin != f.origin)
    {
      assert Framed(s, s.sent[k]) && t.sent[k] == s.sent[k];
    }
  }

  lemma FramesStay(s: System, t: System)
    requires Frames(s) && Extends(s, t) && t.sent == s.sent
    ensures Frames(t)
  {
    assert forall k | 0 <= k < |s.sent| :: Framed(s, s.sent[k]);
  }

  lemma {:induction false} FramesStep(s: System, e: Event, t: System)
    requires Ids(s) && Frames(s) && Step(s, e) == Some(t) && Extends(s, t)
    ensures Frames(t)
  {
    match e
    case Enqueue(i) => FramesAppend(s, t, t.sent[|s.sent|]);
    case PushNotice(_, _, _) => if t.sent == s.sent { FramesStay(s, t); } else { FramesAppend(s, t, t.sent[|s.sent|]); }
    case ReadMessage => if t.sent == s.sent { FramesStay(s, t); } else { FramesAppend(s, t, t.sent[|s.sent|]); }
    case _ => FramesStay(s, t);
  }

  lemma RepliesStep(s: System, e: Event, t: System)
    requires Frames(s) && Replies(s) && Step(s, e) == Some(t) && !e.Forge? && Frames(t) && Extends(s, t)
    ensures Replies(t)
  {
    forall k | 0 <= k < |t.wire| && t.wire[k].Reply?
      ensures var r := t.wire[k];
              && r.handler < |t.handlers| && t.handlers[r.handler] == Some(r.body)
              && t.sent[r.handler].request && r.id == Some(t.sent[r.handler].id)
    {
      if k < |s.wire| {
        assert t.wire[k] == s.wire[k];
      }
    }
  }

  /** The reply that the reader matches to a channel was computed for the call that waits on it. */
  lemma {:induction false} MatchedReplyIsGenuine(s: System, c: nat, clock: nat, limit: nat)
    requires Apart(s, clock, limit) && Own(s) && Ids(s) && Frames(s) && Replies(s)
    requires s.read < |s.wire| && s.wire[s.read].Reply? && s.wire[s.read].id.Some?
    requires s.table.Lookup(s.wire[s.read].id.value) == Some(c)
    ensures var r := s.wire[s.read]; Genuine(s, s.owners[c], Response(r.id.value, r.body, r.handler))
  {
    var r := s.wire[s.read];
    var i := s.owners[c];
    var f := s.sent[r.handler];
    assert Framed(s, f) && s.calls[i].id == r.id.value == f.id && 0 < s.calls[i].turn <= limit;
    match f.origin
    case FromCall(j) =>
      if i != j {
        IdsDiffer(s, i, j);
        assert false;
      }
    case Notice(kind, stamp) =>
      assert f in s.sent;
      NoticeIdsApart(s.table.agent, kind, stamp, s.calls[i].turn % WORD);
      assert false;
    case Confirmation =>
      assert false;
  }

  lemma ReaderOrigin(s: System, e: Event, t: System)
    requires Own(s) && Step(s, e) == Some(t) && t.reader.Holding?
    ensures t.reader.chan < |s.owners| && t.reader.chan < |t.owners|
    ensures t.owners[t.reader.chan] == s.owners[t.reader.chan]
    ensures || t.reader == s.reader
            || (s.read < |s.wire| && s.wire[s.read].Reply? && s.wire[s.read].id == Some(t.reader.resp.id) &&
                s.table.Lookup(t.reader.resp.id) == Some(t.reader.chan) &&
                t.reader.resp == Response(t.reader.resp.id, s.wire[s.read].body, s.wire[s.read].handler))
  {
    match e
    case Register(_) =>
    case Receive(_) =>
    case Cleanup(_) =>
    case ReadMessage =>
    case SendToCaller =>
    case CloseChannel =>
    case _ => assert t.reader == s.reader && t.owners == s.owners;
  }

  lemma {:induction false} ReaderGenuine(s: System, e: Event, t: System, clock: nat, limit: nat)
    requires Apart(s, clock, limit) && Ids(s) && Traffic(s)
    requires Step(s, e) == Some(t) && Own(t) && Extends(s, t) && t.reader.Holding?
    ensures Genuine(t, t.owners[t.reader.chan], t.reader.resp)
  {
    hide Step, Extends, Genuine, Frames, Replies, Apart;
    var c, resp := t.reader.chan, t.reader.resp;
    ReaderOrigin(s, e, t);
    if t.reader != s.reader {
      MatchedReplyIsGenuine(s, c, clock, limit);
    }
    OwnerTurn(s, c);
    GenuineStays(s, t, s.owners[c], resp);
  }

  lemma OwnerTurn(s: System, c: nat)
    requires Own(s) && Ids(s) && c < |s.owners|
    ensures s.owners[c] < |s.calls| && s.calls[s.owners[c]].turn > 0
  {}

  /** Slot c of t was full in s already, or the reader has just filled it. */
  ghost predicate SlotFrom(s: System, t: System, c: nat)
    requires c < |t.table.chans|
  {
    && c < |s.table.chans| && c < |t.owners| && c < |s.owners| && s.owners[c] == t.owners[c]
    && (|| t.table.chans[c].slot == s.table.chans[c].slot
        || (s.reader.Holding? && s.reader.chan == c && t.table.chans[c].slot == Some(s.reader.resp)))
  }

  lemma SlotReceive(s: System, i: nat, t: System, c: nat)
    requires |s.owners| == |s.table.chans| && DoReceive(s, i) == Some(t) && c < |t.table.chans|
    requires t.table.chans[c].slot.Some?
    ensures SlotFrom(s, t, c)
  {}

  lemma SlotDrain(s: System, t: System, c: nat)
    requires |s.owners| == |s.table.chans| && DoDrain(s) == Some(t) && c < |t.table.chans|
    ensures SlotFrom(s, t, c)
  {}

  lemma SlotRegister(s: System, i: nat, t: System, c: nat)
    requires |s.owners| == |s.table.chans| && DoRegister(s, i) == Some(t) && c < |t.table.chans|
    requires t.table.chans[c].slot.Some?
    ensures SlotFrom(s, t, c)
  {}

  lemma SlotDeliver(s: System, t: System, c: nat)
    requires |s.owners| == |s.table.chans| && (DoSend(s) == Some(t) || DoCloseChannel(s) == Some(t))
    requires c < |t.table.chans|
    ensures SlotFrom(s, t, c)
  {}

  lemma ChansStay(s: System, e: Event, t: System)
    requires Step(s, e) == Some(t) && !e.Register? && !e.Receive? && !e.CloseDrains? && !e.SendToCaller?
    requires !e.CloseChannel?
    ensures t.table.chans == s.table.chans && t.owners == s.owners
  {
    hide DoReceive, DoDrain, DoRegister, DoSend, DoCloseChannel;
  }

  /** Only the reader fills a slot. */
  lemma SlotOrigin(s: System, e: Event, t: System, c: nat)
    requires |s.owners| == |s.table.chans| && Step(s, e) == Some(t)
    requires c < |t.table.chans| && t.table.chans[c].slot.Some?
    ensures SlotFrom(s, t, c)
  {
    hide DoReceive, DoDrain, DoRegister, DoSend, DoCloseChannel, DoTakeId, DoEnqueue, DoCleanup, DoRead, DoFinish;
    match e
    case Register(i) => SlotRegister(s, i, t, c);
    case Receive(i) => SlotReceive(s, i, t, c);
    case CloseDrains => SlotDrain(s, t, c);
    case SendToCaller => SlotDeliver(s, t, c);
    case CloseChannel => SlotDeliver(s, t, c);
    case _ => ChansStay(s, e, t);
  }

  /** What call i of t returns it returned in s already, or it has just taken it from its own slot. */
  ghost predicate ReturnFrom(s: System, t: System, i: nat)
    requires i < |t.calls|
  {
    && i < |s.calls|
    && (|| t.calls[i].Returns() == s.calls[i].Returns()
        || (s.calls[i].chan < |s.owners| && s.calls[i].chan < |s.table.chans| && s.owners[s.calls[i].chan] == i &&
            t.calls[i].Returns() == s.table.chans[s.calls[i].chan].slot))
  }

  lemma ReturnReceive(s: System, j: nat, t: System, i: nat)
    requires Owners(s) && DoReceive(s, j) == Some(t) && i < |t.calls| && t.calls[i].Returns().Some?
    ensures ReturnFrom(s, t, i)
  {}

  lemma ReturnCleanup(s: System, j: nat, t: System, i: nat)
    requires DoCleanup(s, j) == Some(t) && i < |t.calls|
    ensures ReturnFrom(s, t, i)
  {}

  lemma ReturnMove(s: System, j: nat, p: Phase, i: nat)
    requires j < |s.calls| && s.Move(j, p).calls[j].Returns() == None && i < |s.calls|
    requires s.Move(j, p).calls[i].Returns().Some?
    ensures s.Move(j, p).calls[i].Returns() == s.calls[i].Returns()
  {}

  /** A call returns what it took from its own slot. */
  lemma ReturnOrigin(s: System, e: Event, t: System, i: nat)
    requires Owners(s) && Step(s, e) == Some(t) && i < |t.calls| && t.calls[i].Returns().Some?
    ensures ReturnFrom(s, t, i)
  {
    hide DoReceive, DoCleanup, Owners;
    match e
    case Receive(j) => ReturnReceive(s, j, t, i);
    case Cleanup(j) => ReturnCleanup(s, j, t, i);
    case MarshalFails(j) => ReturnMove(s, j, Done(Failed), i);
    case Enqueue(j) => ReturnMove(s, j, Sent, i);
    case CancelSend(j) => ReturnMove(s, j, Leaving(Failed), i);
    case AgentGone(j) => ReturnMove(s, j, Leaving(Failed), i);
    case CancelWait(j) => ReturnMove(s, j, Leaving(Failed), i);
    case Register(_) =>
    case TakeId(_) =>
    case NewCall(_, _) =>
    case _ => CallsStay(s, e, t);
  }

  lemma {:induction false} GenuinesStep(s: System, e: Event, t: System, clock: nat, limit: nat)
    requires Apart(s, clock, limit) && Ids(s) && Traffic(s)
    requires Step(s, e) == Some(t) && Own(t) && Extends(s, t)
    ensures Genuines(t)
  {
    hide Step, Extends, Genuine, Frames, Replies, Apart;
    if t.reader.Holding? {
      ReaderGenuine(s, e, t, clock, limit);
    }
    forall c | 0 <= c < |t.table.chans| && t.table.chans[c].slot.Some?
      ensures Genuine(t, t.owners[c], t.table.chans[c].slot.value)
    {
      SlotOrigin(s, e, t, c);
      OwnerTurn(s, c);
      GenuineStays(s, t, s.owners[c], t.table.chans[c].slot.value);
    }
    forall i | 0 <= i < |t.calls| && t.calls[i].Returns().Some? ensures Genuine(t, i, t.calls[i].Returns().value) {
      ReturnOrigin(s, e, t, i);
      GenuineStays(s, t, i, t.calls[i].Returns().value);
    }
  }

  /** The clock does not run backwards below `clock`. */
  ghost predicate Stamped(es: seq<Event>, clock: nat) { forall e | e in es && e.PushNotice? :: clock <= e.stamp }

  lemma NoticesStep(s: System, e: Event, t: System, clock: nat)
    requires NoticesFrom(s, clock) && Step(s, e) == Some(t) && (e.PushNotice? ==> clock <= e.stamp)
    ensures NoticesFrom(t, clock)
  {
    hide DoTakeId, DoRegister, DoReceive, DoCleanup, DoSend, DoCloseChannel, DoDrain, DoFinish;
    SentStep(s, e, t);
  }

  lemma SentStep(s: System, e: Event, t: System)
    requires Step(s, e) == Some(t)
    ensures || t.sent == s.sent
            || exists f :: t.sent == s.sent + [f] && (f.origin.Notice? ==> e.PushNotice? && f.origin.stamp == e.stamp)
  {
    match e
    case Enqueue(i) => assert t.sent == s.sent + [t.sent[|s.sent|]];
    case PushNotice(_, _, _) => assert t.sent != s.sent ==> t.sent == s.sent + [t.sent[|s.sent|]];
    case ReadMessage => assert t.sent != s.sent ==> t.sent == s.sent + [t.sent[|s.sent|]];
    case _ => assert t.sent == s.sent;
  }

  lemma {:induction false} RunKeepsTraffic(s: System, es: seq<Event>, t: System, clock: nat, limit: nat)
    requires Ids(s) && Traffic(s) && NoticesFrom(s, clock) && Honest(es) && Stamped(es, clock)
    requires Run(s, es) == Some(t) && t.issued <= limit <= WORD
    requires PlainAgent(s.table.agent) || Clear(clock, limit)
    ensures Ids(t) && Traffic(t)
    decreases |es|
  {
    hide Step, Frames, Replies, Genuines, Own, Extends, LogsExtend, CallsExtend, NoticesFrom;
    if es != [] {
      var e, u := es[0], Step(s, es[0]).value;
      assert e in es;
      OwnStep(s, e, u);
      IdsStep(s, e, u);
      RunKeepsIds(u, es[1..], t);
      StepExtends(s, e, u);
      FramesStep(s, e, u);
      RepliesStep(s, e, u);
      GenuinesStep(s, e, u, clock, limit);
      NoticesStep(s, e, u, clock);
      RunKeepsTraffic(u, es[1..], t, clock, limit);
    }
  }

  lemma StepExtends(s: System, e: Event, t: System)
    requires Ids(s) && Frames(s) && Step(s, e) == Some(t)
    ensures Extends(s, t)
  {
    StepCallsExtend(s, e, t);
    StepLogsExtend(s, e, t);
  }

  /** Every answer that `DispatchJob` has returned is what the agent computed for that very call: the
      handler ran on the frame with the call's own job and params, and no other frame of the call exists. */
  ghost predicate Correlated(t: System) {
    forall i | 0 <= i < |t.calls| && t.calls[i].phase.Done? && t.calls[i].Returns().Some? ::
      var resp := t.calls[i].Returns().value;
      && Genuine(t, i, resp)
      && (forall h | 0 <= h < |t.sent| && t.sent[h].origin == FromCall(i) :: h == resp.handler)
  }

  /** End-to-end correlation, in every interleaving, as long as the request counter has not wrapped around, for
      every agent whose id is not the prefix of a notice, and for the others as long as fewer requests have been
      issued than the least notice stamp. */
  lemma {:induction false} Correlation(agent: string, es: seq<Event>, t: System, clock: nat)
    requires Honest(es) && Stamped(es, clock) && Run(Init(agent), es) == Some(t) && t.issued <= WORD
    requires PlainAgent(agent) || Clear(clock, t.issued)
    ensures Correlated(t)
  {
    hide Run;
    RunKeepsTraffic(Init(agent), es, t, clock, t.issued);
    forall i, h | 0 <= i < |t.calls| && t.calls[i].phase.Done? && t.calls[i].Returns().Some? && 0 <= h < |t.sent| &&
        t.sent[h].origin == FromCall(i)
      ensures h == t.calls[i].Returns().value.handler
    {
      var k := t.calls[i].Returns().value.handler;
      assert Genuine(t, i, t.calls[i].Returns().value);
      assert t.sent[k].origin == t.sent[h].origin;
    }
  }

  // ---- answers that go to the wrong call -------------------------------------------------------

  function NumberedCall(agent: string, n: nat): Call {
    Call("ping", "{}", n, RequestId(agent, n % WORD), 0, Numbered)
  }

  /** k further calls that have their ids and have gone no further. */
  function More(s: System, k: nat): System {
    s.(table := s.table.(counter := (s.issued + k) % WORD), issued := s.issued + k,
       calls := s.calls + seq(k, i requires 0 <= i < k => NumberedCall(s.table.agent, s.issued + i + 1)))
  }

  lemma CallOpens(t: System)
    ensures Step(t, NewCall("ping", "{}")) == Some(t.(calls := t.calls + [Call("ping", "{}", 0, "", 0, Fresh)]))
  {}

  lemma CallTakesId(t: System, i: nat, n: nat)
    requires t.At(i, Fresh) && n == t.issued + 1 && t.table.counter == t.issued % WORD
    ensures Step(t, TakeId(i)) ==
            Some(t.(table := t.table.(counter := n % WORD), issued := n,
                    calls := t.calls[i := t.calls[i].(turn := n, id := RequestId(t.table.agent, n % WORD),
                        phase := Numbered)]))
  {
    hide RequestId;
    assert (t.table.counter + 1) % WORD == n % WORD;
  }

  lemma CallAdded(t: System, n: nat)
    requires n == t.issued + 1 && t.table.counter == t.issued % WORD
    ensures Run(t, [NewCall("ping", "{}"), TakeId(|t.calls|)]) ==
            Some(t.(table := t.table.(counter := n % WORD), issued := n,
                calls := t.calls + [NumberedCall(t.table.agent, n)]))
  {
    hide RequestId, Step;
    var i, blank := |t.calls|, Call("ping", "{}", 0, "", 0, Fresh);
    var u := t.(calls := t.calls + [blank]);
    CallOpens(t);
    CallTakesId(u, i, n);
    assert u.calls[i := NumberedCall(t.table.agent, n)] == t.calls + [NumberedCall(t.table.agent, n)];
    RunTwo(t, NewCall("ping", "{}"), TakeId(i));
  }

  lemma OneMoreCall(s: System, k: nat)
    ensures Run(More(s, k), [NewCall("ping", "{}"), TakeId(|s.calls| + k)]) == Some(More(s, k + 1))
  {
    hide RequestId, Run, Step, NumberedCall;
    CallAdded(More(s, k), s.issued + k + 1);
    assert More(s, k).calls + [NumberedCall(s.table.agent, s.issued + k + 1)] == More(s, k + 1).calls;
  }

  /** The events that lead there contain no notice. */
  ghost predicate CallsOnly(es: seq<Event>) { forall e | e in es :: !e.Forge? && !e.PushNotice? }

  lemma {:induction false} MoreReached(s: System, k: nat) returns (es: seq<Event>)
    requires s.table.counter == s.issued % WORD
    ensures CallsOnly(es) && Run(s, es) == Some(More(s, k))
  {
    if k == 0 {
      es := [];
      assert More(s, 0) == s;
    } else {
      hide More, Step;
      es := MoreReached(s, k - 1);
      OneMoreCall(s, k - 1);
      RunAppend(s, es, [NewCall("ping", "{}"), TakeId(|s.calls| + k - 1)]);
      es := es + [NewCall("ping", "{}"), TakeId(|s.calls| + k - 1)];
    }
  }

  /** Call i waits for its answer, alone in the map. */
  ghost predicate Waits(s: System, i: nat, id: string) {
    && i < |s.calls| && s.calls[i].id == id && s.calls[i].chan < |s.table.chans|
    && s.table.pending == Some(map[id := s.calls[i].chan]) && s.table.chans[s.calls[i].chan] == EMPTY
    && s.reader == Idle && s.read == 0
  }

  /** Nothing has been written to the agent yet. */
  ghost predicate Unwritten(s: System) { s.written == 0 && s.handlers == [] && s.wire == [] }

  /** It waits, but the reply on the wire answers somebody else's frame, which has the same id. */
  ghost predicate Mistaken(s: System, i: nat, id: string) {
    && Waits(s, i, id) && s.calls[i].phase.Sent? && s.wire == [Reply(Some(id), "success", 0)]
    && s.sent != [] && s.sent[0].origin != FromCall(i)
  }

  lemma LastRegisters(s: System, i: nat) returns (t: System)
    requires i < |s.calls| && s.calls[i].phase.Numbered? && s.table.pending == Some(map[])
    requires s.reader == Idle && s.read == 0
    ensures Run(s, [Register(i)]) == Some(t) && t.issued == s.issued && Waits(t, i, s.calls[i].id)
    ensures t.calls[i].phase.Registered? && t.sent == s.sent && t.table.agent == s.table.agent
    ensures Unwritten(s) ==> Unwritten(t)
  {
    t := Step(s, Register(i)).value;
    assert [Register(i)][1..] == [];
  }

  /** The frame of the waiting call enters the queue behind another one. */
  lemma LastEnqueues(s: System, i: nat, id: string) returns (t: System)
    requires Waits(s, i, id) && s.calls[i].phase.Registered? && |s.sent| == 1 && Unwritten(s)
    ensures Run(s, [Enqueue(i)]) == Some(t) && t.issued == s.issued && Waits(t, i, id) && t.calls[i].phase.Sent?
    ensures |t.sent| == 2 && t.sent[0] == s.sent[0] && Unwritten(t)
  {
    t := Step(s, Enqueue(i)).value;
    assert [Enqueue(i)][1..] == [];
  }

  const HANDLED: seq<Event> := [Write, StartHandler, FinishHandler(0, "success")]

  lemma HandlerRuns(s0: System) returns (s: seq<System>)
    requires |s0.sent| == 2 && s0.sent[0].request && Unwritten(s0)
    ensures |s| == 4 && s[0] == s0 && forall j | 0 <= j < 3 :: Step(s[j], HANDLED[j]) == Some(s[j + 1])
    ensures s[3] == s0.(written := 1, handlers := [Some("success")], wire := [Reply(Some(s0.sent[0].id), "success", 0)])
  {
    var s1 := Step(s0, Write).value;
    var s2 := Step(s1, StartHandler).value;
    var s3 := Step(s2, FinishHandler(0, "success")).value;
    s := [s0, s1, s2, s3];
  }

  /** The agent answers the first frame. */
  lemma FirstAnswered(s: System, i: nat, id: string) returns (t: System)
    requires Waits(s, i, id) && s.calls[i].phase.Sent? && Unwritten(s)
    requires |s.sent| == 2 && s.sent[0].request && s.sent[0].id == id && s.sent[0].origin != FromCall(i)
    ensures Run(s, HANDLED) == Some(t) && t.issued == s.issued && Mistaken(t, i, id)
  {
    hide Step;
    var states := HandlerRuns(s);
    TracedRun(HANDLED, states, 0);
    t := states[3];
  }

  lemma ReaderHolds(s0: System, i: nat, id: string) returns (s1: System)
    requires Mistaken(s0, i, id)
    ensures Step(s0, ReadMessage) == Some(s1)
    ensures s1.calls == s0.calls && s1.sent == s0.sent && s1.issued == s0.issued && s1.table.chans == s0.table.chans
    ensures s1.table.pending == Some(map[]) && s1.reader == Holding(s0.calls[i].chan, Response(id, "success", 0))
  {
    s1 := Step(s0, ReadMessage).value;
    assert s1.table.pending == Some(map[]);
  }

  lemma ReaderTakes(s0: System, i: nat, id: string) returns (s1: System, s2: System)
    requires Mistaken(s0, i, id)
    ensures Step(s0, ReadMessage) == Some(s1) && Step(s1, SendToCaller) == Some(s2)
    ensures s2.calls == s0.calls && s2.sent == s0.sent && s2.issued == s0.issued && s2.table.pending == Some(map[])
    ensures s0.calls[i].chan < |s2.table.chans|
    ensures s2.table.chans[s0.calls[i].chan] == Chan(Some(Response(id, "success", 0)), false)
  {
    hide DoRead;
    s1 := ReaderHolds(s0, i, id);
    s2 := Step(s1, SendToCaller).value;
  }

  lemma CallTakes(s0: System, i: nat, resp: Response) returns (s1: System, s2: System)
    requires i < |s0.calls| && s0.calls[i].phase.Sent? && s0.calls[i].chan < |s0.table.chans|
    requires s0.table.pending == Some(map[]) && s0.table.chans[s0.calls[i].chan] == Chan(Some(resp), false)
    ensures Step(s0, Receive(i)) == Some(s1) && Step(s1, Cleanup(i)) == Some(s2)
    ensures s2.sent == s0.sent && s2.issued == s0.issued
    ensures i < |s2.calls| && s2.calls[i].phase == Done(Answer(resp))
  {
    s1 := Step(s0, Receive(i)).value;
    s2 := Step(s1, Cleanup(i)).value;
  }

  function CallEvents(i: nat): seq<Event> { [ReadMessage, SendToCaller, Receive(i), Cleanup(i)] }

  /** The reader hands the reply to the call that waits. */
  lemma CallGetsIt(s: System, i: nat, id: string) returns (t: System)
    requires Mistaken(s, i, id)
    ensures Run(s, CallEvents(i)) == Some(t) && t.issued == s.issued && !Correlated(t)
  {
    hide Step;
    var resp := Response(id, "success", 0);
    var s1, s2 := ReaderTakes(s, i, id);
    var s3, s4 := CallTakes(s2, i, resp);
    TracedRun(CallEvents(i), [s, s1, s2, s3, s4], 0);
    t := s4;
    assert t.calls[i].Returns() == Some(resp);
    assert !Genuine(t, i, resp);
  }

  /** From a waiting call whose frame is second in the queue to its wrong answer. */
  lemma WrongAnswer(s: System, i: nat, id: string) returns (es: seq<Event>, t: System)
    requires Waits(s, i, id) && s.calls[i].phase.Registered? && Unwritten(s)
    requires |s.sent| == 1 && s.sent[0].request && s.sent[0].id == id && s.sent[0].origin != FromCall(i)
    ensures CallsOnly(es) && Run(s, es) == Some(t) && t.issued == s.issued && !Correlated(t)
  {
    hide Step, Run, Waits, Unwritten, Mistaken, Correlated;
    assert i < |s.calls| by { WaitsInRange(s, i, id); }
    var a := LastEnqueues(s, i, id);
    var b := FirstAnswered(a, i, id);
    t := CallGetsIt(b, i, id);
    RunAppend(s, [Enqueue(i)], HANDLED);
    RunAppend(s, [Enqueue(i)] + HANDLED, CallEvents(i));
    es := [Enqueue(i)] + HANDLED + CallEvents(i);
  }

  lemma WaitsInRange(s: System, i: nat, id: string)
    requires Waits(s, i, id)
    ensures i < |s.calls|
  {}

  lemma PushedFirst(s: System, kind: NoticeKind, n: nat, i: nat, id: string) returns (t: System)
    requires Waits(s, i, id) && s.calls[i].phase.Registered? && s.sent == [] && Unwritten(s)
    ensures Run(s, [PushNotice(kind, n, "[]")]) == Some(t) && t.issued == s.issued
    ensures Waits(t, i, id) && t.calls[i].phase.Registered? && Unwritten(t)
    ensures t.sent == [Frame(RequestId(kind.Prefix(), n), kind.Job(), "[]", true, Notice(kind, n))]
  {
    hide RequestId;
    t := Step(s, PushNotice(kind, n, "[]")).value;
    assert [PushNotice(kind, n, "[]")][1..] == [];
  }

  lemma MoreShape(s: System, k: nat, i: nat)
    requires k > 0 && i == |s.calls| + k - 1
    ensures var t := More(s, k);
            && i < |t.calls| && t.calls[i] == NumberedCall(s.table.agent, s.issued + k) && t.issued == s.issued + k
            && t.table.pending == s.table.pending && t.reader == s.reader && t.read == s.read
            && t.sent == s.sent && (Unwritten(s) ==> Unwritten(t))
  {}

  /** An agent that is called like the prefix of a notice: its n-th call and a notice stamped n carry the same id,
      and the call returns the answer to the notice. */
  lemma {:induction false} NoticeAnswersCall(kind: NoticeKind, n: nat) returns (es: seq<Event>, t: System)
    requires 0 < n < WORD
    ensures Honest(es) && Stamped(es, n) && Run(Init(kind.Prefix()), es) == Some(t) && t.issued == n && !Correlated(t)
  {
    hide Run, Step, Waits, More, RequestId, Correlated;
    var agent, i, id := kind.Prefix(), n - 1, RequestId(kind.Prefix(), n);
    var s := Init(agent);
    var first := MoreReached(s, n);
    MoreShape(s, n, i);
    var a := LastRegisters(More(s, n), i);
    WaitsInRange(a, i, id);
    var b := PushedFirst(a, kind, n, i, id);
    WaitsInRange(b, i, id);
    var last;
    last, t := WrongAnswer(b, i, id);
    var notice := PushNotice(kind, n, "[]");
    RunAppend(s, first, [Register(i)]);
    RunAppend(s, first + [Register(i)], [notice]);
    RunAppend(s, first + [Register(i)] + [notice], last);
    es := first + [Register(i)] + [notice] + last;
  }

  const GIVEN_UP: seq<Event> := [Enqueue(0), CancelWait(0), Cleanup(0)]

  /** The first call is sent and given up. */
  lemma GivesUp(s: System, id: string) returns (t: System)
    requires Waits(s, 0, id) && s.calls[0].phase.Registered? && |s.calls| == 1 && s.sent == [] && Unwritten(s)
    ensures Run(s, GIVEN_UP) == Some(t) && t.issued == s.issued && |t.calls| == 1 && t.reader == Idle && t.read == 0
    ensures t.table == s.table.(pending := Some(map[])) && Unwritten(t)
    ensures t.sent == [Frame(id, s.calls[0].job, s.calls[0].params, true, FromCall(0))]
  {
    var s1 := Step(s, Enqueue(0)).value;
    var s2 := Step(s1, CancelWait(0)).value;
    t := Step(s2, Cleanup(0)).value;
    assert t.table.pending == Some(map[]);
    TracedRun(GIVEN_UP, [s, s1, s2, t], 0);
  }

  lemma {:induction false} FirstGivenUp(agent: string) returns (es: seq<Event>, t: System)
    ensures CallsOnly(es) && Run(Init(agent), es) == Some(t) && t.issued == 1 && |t.calls| == 1
    ensures t.table.counter == 1 && t.table.pending == Some(map[]) && t.table.agent == agent
    ensures t.reader == Idle && t.read == 0 && Unwritten(t)
    ensures |t.sent| == 1 && t.sent[0].request && t.sent[0].id == RequestId(agent, 1) && t.sent[0].origin == FromCall(0)
  {
    hide Run, RequestId, Waits, Step, More;
    var s, id := Init(agent), RequestId(agent, 1);
    var first := MoreReached(s, 1);
    MoreShape(s, 1, 0);
    MoreTable(s, 1);
    var a := LastRegisters(More(s, 1), 0);
    LastTable(More(s, 1), 0, a);
    assert 1 % WORD == 1 && Waits(a, 0, id);
    t := GivesUp(a, id);
    RunAppend(s, first, [Register(0)]);
    RunAppend(s, first + [Register(0)], GIVEN_UP);
    es := first + [Register(0)] + GIVEN_UP;
  }

  lemma MoreTable(s: System, k: nat)
    ensures More(s, k).table == s.table.(counter := (s.issued + k) % WORD) && |More(s, k).calls| == |s.calls| + k
  {}

  lemma LastTable(s: System, i: nat, t: System)
    requires Run(s, [Register(i)]) == Some(t)
    ensures t.table.counter == s.table.counter && t.table.agent == s.table.agent && |t.calls| == |s.calls|
  {
    assert [Register(i)][1..] == [];
  }

  /** Past 2^64 requests ids repeat: the late answer to a call that was given up goes to the call that got its id,
      for any agent and without any notice. */
  lemma {:induction false} LateAnswer(agent: string) returns (es: seq<Event>, t: System)
    ensures CallsOnly(es) && Run(Init(agent), es) == Some(t) && t.issued == WORD + 1 && !Correlated(t)
  {
    hide Run, Step, Waits, More, RequestId, Correlated, Unwritten;
    var i, id := WORD, RequestId(agent, 1);
    var first, s := FirstGivenUp(agent);
    var more := MoreReached(s, WORD);
    MoreShape(s, WORD, i);
    assert (WORD + 1) % WORD == 1;
    var a := LastRegisters(More(s, WORD), i);
    WaitsInRange(a, i, id);
    var last;
    last, t := WrongAnswer(a, i, id);
    RunAppend(Init(agent), first, more);
    RunAppend(Init(agent), first + more, [Register(i)]);
    RunAppend(Init(agent), first + more + [Register(i)], last);
    es := first + more + [Register(i)] + last;
  }

  lemma {:induction false} RunAppend(s: System, es: seq<Event>, fs: seq<Event>)
    requires Run(s, es).Some?
    ensures Run(s, es + fs) == Run(Run(s, es).value, fs)
    decreases |es|
  {
    if es == [] {
      assert es + fs == fs;
    } else {
      assert (es + fs)[1..] == es[1..] + fs;
      RunAppend(Step(s, es[0]).value, es[1..], fs);
    }
  }

  /** A run given together with all its states. */
  lemma {:induction false} TracedRun(es: seq<Event>, states: seq<System>, k: nat)
    requires |states| == |es| + 1 && k <= |es|
    requires forall j | 0 <= j < |es| :: Step(states[j], es[j]) == Some(states[j + 1])
    ensures Run(states[k], es[k..]) == Some(states[|es|])
    decreases |es| - k
  {
    if k < |es| {
      assert es[k..][1..] == es[k + 1..];
      TracedRun(es, states, k + 1);
    }
  }

  /** In every run in which at most `limit` requests are issued and the hub's clock reads `clock` or more. */
  ghost predicate AlwaysCorrelated(agent: string, clock: nat, limit: nat) {
    forall es, t | Honest(es) && Stamped(es, clock) && Run(Init(agent), es) == Some(t) && t.issued <= limit ::
        Correlated(t)
  }

  /** What decides it: whether ids can repeat, and otherwise the id of the agent, which `ServeHTTP` could check when
      the agent connects, and for an agent that is called like the prefix of a notice whether the requests can
      catch up with the clock. */
  lemma {:induction false} CorrelationExactly(agent: string, clock: nat, limit: nat)
    ensures AlwaysCorrelated(agent, clock, limit) <==> limit <= WORD && (PlainAgent(agent) || Clear(clock, limit))
  {
    hide Run, Correlated;
    if WORD < limit {
      var es, t := LateAnswer(agent);
      assert Honest(es) && Stamped(es, clock);
    } else if PlainAgent(agent) || Clear(clock, limit) {
      forall es, t | Honest(es) && Stamped(es, clock) && Run(Init(agent), es) == Some(t) && t.issued <= limit
        ensures Correlated(t)
      {
        Correlation(agent, es, t, clock);
      }
    } else {
      var kind := if agent == "sync" then SyncSchedules else FailoverUrls;
      assert kind.Prefix() == agent;
      var es, t := NoticeAnswersCall(kind, if clock == 0 then 1 else clock);
    }
  }
}
