/** `register`, `unregister` and `Close` around the map of connections and its lock `h.mu`
    (hub/server.go). The lock is not reentrant: `register` holds it while it closes the old
    connection, and `Close` needs it to unregister. */
module Registry {
  import opened Text

  /** Life of a connection. `Closing` is inside `Close`, before its `unregister` has got the lock. */
  datatype Phase = Accepted | Registering | Live | Closing | Unregistered | Finished

  datatype Conn = Conn(id: string, phase: Phase) {
    predicate Present() { phase.Live? || phase.Closing? }
  }

  /** `lock` is held by the connection whose `register` is running; `unregister` holds it only within
      one event. */
  datatype State = State(conns: seq<Conn>, connections: map<string, nat>, lock: Option<nat>) {
    predicate At(c: nat, p: Phase) { c < |conns| && conns[c].phase == p }

    function Move(c: nat, p: Phase): State
      requires c < |conns|
    {
      this.(conns := conns[c := conns[c].(phase := p)])
    }
  }

  const INIT := State([], map[], None)

  datatype Event =
    | Accept(id: string)      // ServeHTTP has authenticated an agent
    | Lock(c: nat)            // register takes the lock
    | CloseOld(c: nat)        // register calls Close on the connection it finds under the id
    | Put(c: nat)             // register stores the connection and releases the lock
    | CloseBegins(c: nat)     // a pump of a live connection ends
    | Unregister(c: nat)      // Close takes the lock, deletes the id, releases it
    | Drain(c: nat)           // Close ends

  function Step(s: State, e: Event): Option<State> {
    match e
    case Accept(id) => Some(s.(conns := s.conns + [Conn(id, Accepted)]))
    case Lock(c) => if s.At(c, Accepted) && s.lock.None? then Some(s.Move(c, Registering).(lock := Some(c))) else None
    case CloseOld(c) =>
      if c < |s.conns| && s.lock == Some(c) && s.conns[c].id in s.connections then
        var prior := s.connections[s.conns[c].id];
        if s.At(prior, Live) then Some(s.Move(prior, Closing)) else None
      else None
    case Put(c) =>
      if c < |s.conns| && s.lock == Some(c) then
        var id := s.conns[c].id;
        if id !in s.connections || s.At(s.connections[id], Finished)
        then Some(s.Move(c, Live).(connections := s.connections[id := c], lock := None))
        else None
      else None
    case CloseBegins(c) => if s.At(c, Live) then Some(s.Move(c, Closing)) else None
    case Unregister(c) =>
      if s.At(c, Closing) && s.lock.None?
      then Some(s.Move(c, Unregistered).(connections := s.connections - {s.conns[c].id}))
      else None
    case Drain(c) => if s.At(c, Unregistered) then Some(s.Move(c, Finished)) else None
  }

  function Run(s: State, es: seq<Event>): Option<State>
    decreases |es|
  {
    if es == [] then Some(s)
    else match Step(s, es[0]) case None => None case Some(t) => Run(t, es[1..])
  }

  ghost predicate Reachable(s: State) { exists es :: Run(INIT, es) == Some(s) }

  /** The map holds exactly the connections that are live or closing, each under its own id. */
  ghost predicate Exact(s: State) {
    && (forall id | id in s.connections ::
          s.connections[id] < |s.conns| && s.conns[s.connections[id]].id == id && s.conns[s.connections[id]].Present())
    && (forall c | 0 <= c < |s.conns| && s.conns[c].Present() ::
          s.conns[c].id in s.connections && s.connections[s.conns[c].id] == c)
    && (forall c | 0 <= c < |s.conns| :: s.conns[c].phase.Registering? <==> s.lock == Some(c))
    && (s.lock.Some? ==> s.lock.value < |s.conns|)
  }

  /** Closing keeps a connection present; so does leaving states in which it was not. */
  lemma ExactMove(s: State, c: nat, p: Phase)
    requires Exact(s) && c < |s.conns| && !p.Registering? && !s.conns[c].phase.Registering?
    requires p.Closing? || p.Live? <==> s.conns[c].Present()
    ensures Exact(s.Move(c, p))
  {}

  lemma ExactPut(s: State, c: nat, t: State)
    requires Exact(s) && Step(s, Put(c)) == Some(t)
    ensures Exact(t)
  {
    assert s.conns[c].id !in s.connections;
  }

  lemma ExactUnregister(s: State, c: nat, t: State)
    requires Exact(s) && Step(s, Unregister(c)) == Some(t)
    ensures Exact(t)
  {
    assert s.connections[s.conns[c].id] == c;
  }

  lemma ExactAccept(s: State, id: string)
    requires Exact(s)
    ensures Exact(s.(conns := s.conns + [Conn(id, Accepted)]))
  {}

  lemma ExactLock(s: State, c: nat, t: State)
    requires Exact(s) && Step(s, Lock(c)) == Some(t)
    ensures Exact(t)
  {}

  lemma {:induction false} ExactStep(s: State, e: Event, t: State)
    requires Exact(s) && Step(s, e) == Some(t)
    ensures Exact(t)
  {
    match e
    case Accept(id) => ExactAccept(s, id);
    case Lock(c) => ExactLock(s, c, t);
    case CloseOld(c) => ExactMove(s, s.connections[s.conns[c].id], Closing);
    case Put(c) => ExactPut(s, c, t);
    case CloseBegins(c) => ExactMove(s, c, Closing);
    case Unregister(c) => ExactUnregister(s, c, t);
    case Drain(c) => ExactMove(s, c, Finished);
  }

  lemma {:induction false} RunKeepsExact(s: State, es: seq<Event>, t: State)
    requires Exact(s) && Run(s, es) == Some(t)
    ensures Exact(t)
    decreases |es|
  {
    if es != [] {
      ExactStep(s, es[0], Step(s, es[0]).value);
      RunKeepsExact(Step(s, es[0]).value, es[1..], t);
    }
  }

  /** A connection whose `Close` has unregistered it is not in the map, in any run: nobody puts it back and
      no other connection with the same id lives beside it. `unregister` by id therefore never removes
      the connection of somebody else. */
  lemma FinishedIsAbsent(s: State, c: nat)
    requires Reachable(s) && c < |s.conns|
    ensures c in s.connections.Values <==> s.conns[c].Present()
    ensures s.conns[c].Present() ==>
              s.connections - {s.conns[c].id} ==
              map id | id in s.connections && s.connections[id] != c :: s.connections[id]
  {
    var es :| Run(INIT, es) == Some(s);
    RunKeepsExact(INIT, es, s);
    if s.conns[c].Present() {
      assert s.connections[s.conns[c].id] == c;
    }
  }

  // ---- replacing a connection ------------------------------------------------------------------

  /** `register` of c has the lock and has found a connection under its id. */
  ghost predicate Replacing(s: State, c: nat) {
    c < |s.conns| && s.lock == Some(c) && s.conns[c].id in s.connections
  }

  lemma ReplacingStep(s: State, c: nat, e: Event, t: State)
    requires Exact(s) && Replacing(s, c) && Step(s, e) == Some(t)
    ensures Replacing(t, c) && t.connections == s.connections
  {}

  lemma {:induction false} ReplacingForever(s: State, c: nat, es: seq<Event>, t: State)
    requires Exact(s) && Replacing(s, c) && Run(s, es) == Some(t)
    ensures Replacing(t, c) && t.connections == s.connections
    decreases |es|
  {
    hide Exact, Replacing, Step;
    if es != [] {
      var u := Step(s, es[0]).value;
      ExactStep(s, es[0], u);
      ReplacingStep(s, c, es[0], u);
      ReplacingForever(u, c, es[1..], t);
    }
  }

  ghost predicate CanRelease(s: State) {
    exists es, t :: Run(s, es) == Some(t) && t.lock.None?
  }

  /** `register` announces that it replaces an existing connection. It releases the lock exactly when there
      is none under the id; otherwise the lock is held in every continuation and the map of connections is
      frozen. */
  lemma ReplacementNeverCompletes(s: State, c: nat)
    requires Reachable(s) && c < |s.conns| && s.lock == Some(c)
    ensures CanRelease(s) <==> s.conns[c].id !in s.connections
    ensures s.conns[c].id in s.connections ==>
              forall es, t | Run(s, es) == Some(t) :: t.lock == Some(c) && t.connections == s.connections
  {
    var es :| Run(INIT, es) == Some(s);
    RunKeepsExact(INIT, es, s);
    if s.conns[c].id in s.connections {
      forall fs, t | Run(s, fs) == Some(t) ensures t.lock == Some(c) && t.connections == s.connections {
        ReplacingForever(s, c, fs, t);
      }
    } else {
      var t := Step(s, Put(c)).value;
      assert [Put(c)][1..] == [];
      assert Run(s, [Put(c)]) == Some(t) && t.lock.None?;
    }
  }

  lemma RunCons(s: State, e: Event, es: seq<Event>)
    requires Step(s, e).Some?
    ensures Run(s, [e] + es) == Run(Step(s, e).value, es)
  {
    assert ([e] + es)[1..] == es;
  }

  // ---- connecting and closing ------------------------------------------------------------------

  lemma RunThree(s: State, a: Event, b: Event, c: Event)
    requires Step(s, a).Some? && Step(Step(s, a).value, b).Some? && Step(Step(Step(s, a).value, b).value, c).Some?
    ensures Run(s, [a, b, c]) == Step(Step(Step(s, a).value, b).value, c)
  {
    var t := Step(s, a).value;
    var u := Step(t, b).value;
    assert [a, b, c][1..] == [b, c] && [b, c][1..] == [c] && [c][1..] == [];
    assert Run(u, [c]) == Step(u, c);
  }

  /** As long as the lock is free, a live connection can close, and its id is free again. */
  lemma CloseFrees(s: State, c: nat) returns (t: State)
    requires Reachable(s) && s.At(c, Live) && s.lock.None?
    ensures Run(s, [CloseBegins(c), Unregister(c), Drain(c)]) == Some(t)
    ensures t.At(c, Finished) && t.lock.None? && t.connections == s.connections - {s.conns[c].id}
  {
    var a := Step(s, CloseBegins(c)).value;
    var b := Step(a, Unregister(c)).value;
    t := Step(b, Drain(c)).value;
    RunThree(s, CloseBegins(c), Unregister(c), Drain(c));
  }

  /** And an agent whose id is free gets connected. */
  lemma FreeConnects(s: State, id: string) returns (t: State)
    requires s.lock.None? && id !in s.connections
    ensures Run(s, [Accept(id), Lock(|s.conns|), Put(|s.conns|)]) == Some(t)
    ensures t.At(|s.conns|, Live) && t.lock.None? && t.connections == s.connections[id := |s.conns|]
  {
    var c := |s.conns|;
    var a := Step(s, Accept(id)).value;
    var b := Step(a, Lock(c)).value;
    t := Step(b, Put(c)).value;
    RunThree(s, Accept(id), Lock(c), Put(c));
  }

  /** The failing family is not empty: an agent that reconnects before its old connection is closed. */
  lemma ReconnectBlocks(id: string) returns (s: State)
    ensures Reachable(s) && s.lock == Some(1) && !CanRelease(s)
  {
    var s1 := Step(INIT, Accept(id)).value;
    var s2 := Step(s1, Lock(0)).value;
    var s3 := Step(s2, Put(0)).value;
    var s4 := Step(s3, Accept(id)).value;
    s := Step(s4, Lock(1)).value;
    RunCons(s4, Lock(1), []);
    RunCons(s3, Accept(id), [Lock(1)] + []);
    RunCons(s2, Put(0), [Accept(id)] + ([Lock(1)] + []));
    RunCons(s1, Lock(0), [Put(0)] + ([Accept(id)] + ([Lock(1)] + [])));
    RunCons(INIT, Accept(id), [Lock(0)] + ([Put(0)] + ([Accept(id)] + ([Lock(1)] + []))));
    ReplacementNeverCompletes(s, 1);
  }
}
