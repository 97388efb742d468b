/** One agent connection with everything that runs around it: any number of `DispatchJob` callers, the
    bounded write queue and its writer, the agent with one goroutine per request, the reader, and a
    `Close` that may start at any moment. A run is any sequence of the events below; each event is one
    lock section, one channel operation or one message. */
module RpcSystem {
  import opened Text
  import opened PendingTable

  /** Capacity of the write queue `send`. */
  const QUEUE := 256

  datatype Result = Answer(resp: Response) | Failed

  /** How far a call of `DispatchJob` has come. `Leaving` is the deferred cleanup. */
  datatype Phase = Fresh | Numbered | Registered | Sent | Leaving(result: Result) | Done(result: Result)

  datatype Call = Call(job: string, params: string, turn: nat, id: string, chan: nat, phase: Phase) {
    predicate Waits() { phase.Registered? || phase.Sent? }
    /** The response that the call returned or is about to return. */
    function Returns(): Option<Response> {
      if (phase.Leaving? || phase.Done?) && phase.result.Answer? then Some(phase.result.resp) else None
    }
  }

  datatype NoticeKind = SyncSchedules | FailoverUrls {
    function Prefix(): string { if SyncSchedules? then "sync" else "failover" }
    function Job(): string { if SyncSchedules? then "sync_schedules" else "update_failover_urls" }
  }

  datatype Origin = FromCall(call: nat) | Notice(kind: NoticeKind, stamp: nat) | Confirmation

  /** A message from the hub to the agent, a request or a response; `origin` is history. */
  datatype Frame = Frame(id: string, job: string, params: string, request: bool, origin: Origin)

  /** A message from the agent to the hub. */
  datatype FromAgent = Reply(id: Option<string>, body: string, handler: nat) | Submission

  /** `readPump`: between messages, about to send on a channel, or about to close it. */
  datatype Reader = Idle | Holding(chan: nat, resp: Response) | Filled(chan: nat)

  datatype Closing = Open | DoneClosed | Unregistered | Closed

  datatype Exit = ByReader | ByClose | ByCaller

  /** `sent` is the log of everything put into the write queue: the queue is `sent[written..]`, the
      messages on their way to the agent are `sent[|handlers|..written]`, and handler h works on
      `sent[h]`. `wire` is the log of messages from the agent, `wire[read..]` are unread.
      `owners[c]` is the call that registered channel c; `exits` records who took a channel out of the
      map; `issued` counts request ids. */
  datatype System = System(
    table: Table, issued: nat, calls: seq<Call>, owners: seq<nat>, exits: multiset<(nat, Exit)>,
    sent: seq<Frame>, written: nat, handlers: seq<Option<string>>,
    wire: seq<FromAgent>, read: nat, reader: Reader, closing: Closing)
  {
    predicate Room() { |sent| - written < QUEUE }

    predicate At(i: nat, p: Phase) { i < |calls| && calls[i].phase == p }

    function Move(i: nat, p: Phase): System
      requires i < |calls|
    {
      this.(calls := calls[i := calls[i].(phase := p)])
    }

    function Push(f: Frame): System { if Room() then this.(sent := sent + [f]) else this }
  }

  function Init(agent: string): System {
    System(Table(agent, 0, Some(map[]), []), 0, [], [], multiset{}, [], 0, [], [], 0, Idle, Open)
  }

  datatype Event =
    | NewCall(job: string, params: string)
    | TakeId(i: nat)
    | MarshalFails(i: nat)
    | Register(i: nat)
    | Enqueue(i: nat)
    | CancelSend(i: nat)
    | AgentGone(i: nat)
    | Receive(i: nat)
    | CancelWait(i: nat)
    | Cleanup(i: nat)
    | PushNotice(kind: NoticeKind, stamp: nat, params: string)
    | Write
    | StartHandler
    | FinishHandler(h: nat, body: string)
    | Submit
    | Forge(id: Option<string>, body: string, handler: nat)
    | ReadMessage
    | SendToCaller
    | CloseChannel
    | CloseBegins
    | CloseUnregisters
    | CloseDrains

  // ---- one event at a time: None means that the event cannot happen ----------------------------

  /** `NextRequestID`. */
  function DoTakeId(s: System, i: nat): Option<System> {
    if !s.At(i, Fresh) then None
    else
      var t := s.table.Next();
      Some(s.(table := t, issued := s.issued + 1,
              calls := s.calls[i := s.calls[i].(turn := s.issued + 1, id := RequestId(t.agent, t.counter),
                                                phase := Numbered)]))
  }

  function DoRegister(s: System, i: nat): Option<System> {
    if !s.At(i, Numbered) then None
    else if s.table.pending.None? then Some(s.Move(i, Done(Failed)))
    else
      var c := s.calls[i];
      Some(s.(table := s.table.Register(c.id), owners := s.owners + [i],
              calls := s.calls[i := c.(chan := |s.table.chans|, phase := Registered)]))
  }

  function DoEnqueue(s: System, i: nat): Option<System> {
    if !s.At(i, Registered) || !s.Room() then None
    else
      var c := s.calls[i];
      Some(s.Move(i, Sent).(sent := s.sent + [Frame(c.id, c.job, c.params, true, FromCall(i))]))
  }

  /** `resp, ok := <-ch` */
  function DoReceive(s: System, i: nat): Option<System> {
    if !s.At(i, Sent) || s.calls[i].chan >= |s.table.chans| then None
    else
      var c := s.calls[i].chan;
      var ch := s.table.chans[c];
      match ch.slot
      case Some(resp) => Some(s.Move(i, Leaving(Answer(resp))).(table := s.table.Put(c, ch.(slot := None))))
      case None => if ch.closed then Some(s.Move(i, Leaving(Failed))) else None
  }

  function DoCleanup(s: System, i: nat): Option<System> {
    if i >= |s.calls| || !s.calls[i].phase.Leaving? then None
    else
      var c := s.calls[i];
      var t := s.Move(i, Done(c.phase.result)).(table := s.table.Remove(c.id));
      match s.table.Lookup(c.id)
      case None => Some(t)
      case Some(ch) => Some(t.(exits := s.exits + multiset{(ch, ByCaller)}))
  }

  /** `handleIncomingMessage` up to the end of its lock section. */
  function DoRead(s: System): Option<System> {
    if !s.reader.Idle? || s.read >= |s.wire| then None
    else
      var t := s.(read := s.read + 1);
      match s.wire[s.read]
      case Submission => Some(t.Push(Frame("", "", "", false, Confirmation)))
      case Reply(None, _, _) => Some(t)
      case Reply(Some(id), body, h) =>
        match s.table.Lookup(id)
        case None => Some(t)
        case Some(ch) =>
          Some(t.(table := s.table.Remove(id), reader := Holding(ch, Response(id, body, h)),
                  exits := s.exits + multiset{(ch, ByReader)}))
  }

  /** The buffered send: it needs an empty slot, and would panic on a closed channel. */
  function DoSend(s: System): Option<System> {
    if !s.reader.Holding? || s.reader.chan >= |s.table.chans| then None
    else
      var ch := s.table.chans[s.reader.chan];
      if ch.closed || ch.slot.Some? then None
      else Some(s.(table := s.table.Put(s.reader.chan, ch.(slot := Some(s.reader.resp))),
                   reader := Filled(s.reader.chan)))
  }

  /** Closing would panic on a closed channel. */
  function DoCloseChannel(s: System): Option<System> {
    if !s.reader.Filled? || s.reader.chan >= |s.table.chans| then None
    else
      var ch := s.table.chans[s.reader.chan];
      if ch.closed then None
      else Some(s.(table := s.table.Put(s.reader.chan, ch.(closed := true)), reader := Idle))
  }

  /** The section of `Close` under `pendingMu`. */
  function DoDrain(s: System): Option<System> {
    if s.closing != Unregistered then None
    else if s.table.pending.None? then Some(s.(closing := Closed))
    else
      Some(s.(table := s.table.Drain(), closing := Closed,
              exits := s.exits + multiset(set c | c in s.table.pending.value.Values :: (c, ByClose))))
  }

  function DoFinish(s: System, h: nat, body: string): Option<System> {
    if h >= |s.handlers| || h >= |s.sent| || s.handlers[h].Some? || !s.sent[h].request then None
    else Some(s.(handlers := s.handlers[h := Some(body)], wire := s.wire + [Reply(Some(s.sent[h].id), body, h)]))
  }

  function Step(s: System, e: Event): Option<System> {
    match e
    case NewCall(job, params) => Some(s.(calls := s.calls + [Call(job, params, 0, "", 0, Fresh)]))
    case TakeId(i) => DoTakeId(s, i)
    case MarshalFails(i) => if s.At(i, Numbered) then Some(s.Move(i, Done(Failed))) else None
    case Register(i) => DoRegister(s, i)
    case Enqueue(i) => DoEnqueue(s, i)
    case CancelSend(i) => if s.At(i, Registered) then Some(s.Move(i, Leaving(Failed))) else None
    case AgentGone(i) => if s.At(i, Registered) && s.closing != Open then Some(s.Move(i, Leaving(Failed))) else None
    case Receive(i) => DoReceive(s, i)
    case CancelWait(i) => if s.At(i, Sent) then Some(s.Move(i, Leaving(Failed))) else None
    case Cleanup(i) => DoCleanup(s, i)
    case PushNotice(kind, stamp, params) =>
      Some(s.Push(Frame(RequestId(kind.Prefix(), stamp), kind.Job(), params, true, Notice(kind, stamp))))
    case Write => if s.written < |s.sent| then Some(s.(written := s.written + 1)) else None
    case StartHandler => if |s.handlers| < s.written then Some(s.(handlers := s.handlers + [None])) else None
    case FinishHandler(h, body) => DoFinish(s, h, body)
    case Submit => Some(s.(wire := s.wire + [Submission]))
    case Forge(id, body, h) => Some(s.(wire := s.wire + [Reply(id, body, h)]))
    case ReadMessage => DoRead(s)
    case SendToCaller => DoSend(s)
    case CloseChannel => DoCloseChannel(s)
    case CloseBegins => if s.closing == Open then Some(s.(closing := DoneClosed)) else None
    case CloseUnregisters => if s.closing == DoneClosed then Some(s.(closing := Unregistered)) else None
    case CloseDrains => DoDrain(s)
  }

  function Run(s: System, es: seq<Event>): Option<System>
    decreases |es|
  {
    if es == [] then Some(s)
    else match Step(s, es[0]) case None => None case Some(t) => Run(t, es[1..])
  }

  /** `t` is a state that a connection of `agent` can reach, whatever the other end sends. */
  ghost predicate Reachable(agent: string, t: System) {
    exists es :: Run(Init(agent), es) == Some(t)
  }

  /** The agent runs the modelled request handler and nothing else writes to its connection. */
  ghost predicate Honest(es: seq<Event>) { forall e | e in es :: !e.Forge? }
}
