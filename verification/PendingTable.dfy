/** The table of pending JSON-RPC calls of one agent connection (hub/server.go, `AgentConnection`).
    Every method below is one section of the source that runs under `pendingMu`, or one
    operation on a channel; `Table` gives their meaning as functions. */
module PendingTable {
  import opened Text

  /** Values of a uint64. */
  const WORD: nat := 0x1_0000_0000_0000_0000

  /** A JSON-RPC response. `handler` is history: which run of the agent's request handler wrote it. */
  datatype Response = Response(id: string, body: string, handler: nat)

  /** `make(chan *RPCResponse, 1)`: one slot, and whether the channel was closed. */
  datatype Chan = Chan(slot: Option<Response>, closed: bool)

  const EMPTY := Chan(None, false)

  /** `pending` is None once `Close` has set the map to nil. Channels are named by their index in
      `chans`, in the order in which they were registered. */
  datatype Table = Table(agent: string, counter: nat, pending: Option<map<string, nat>>, chans: seq<Chan>) {

    /** What every section relies on and keeps: a channel that is in the map is known, open and empty,
        and is in the map under one id only. */
    ghost predicate Valid() {
      && counter < WORD
      && (pending.Some? ==>
            && (forall id | id in pending.value :: pending.value[id] < |chans| && chans[pending.value[id]] == EMPTY)
            && (forall id, id' | id in pending.value && id' in pending.value && id != id' ::
                  pending.value[id] != pending.value[id']))
    }

    predicate Holds(c: nat) { pending.Some? && c in pending.value.Values }

    function Next(): Table { this.(counter := (counter + 1) % WORD) }

    function Register(id: string): Table {
      if pending.None? then this
      else this.(pending := Some(pending.value[id := |chans|]), chans := chans + [EMPTY])
    }

    function Remove(id: string): Table {
      if pending.None? then this else this.(pending := Some(pending.value - {id}))
    }

    function Lookup(id: string): Option<nat> {
      if pending.Some? && id in pending.value then Some(pending.value[id]) else None
    }

    function Put(c: nat, ch: Chan): Table
      requires c < |chans|
    {
      this.(chans := chans[c := ch])
    }

    /** All channels that are still in the map are closed and the map is dropped. */
    function Drain(): Table {
      if pending.None? then this
      else this.(pending := None,
                 chans := seq(|chans|, c requires 0 <= c < |chans| =>
                              if c in pending.value.Values then chans[c].(closed := true) else chans[c]))
    }
  }

  function RequestId(agent: string, n: nat): string { agent + "-" + Itoa(n) }

  /** Two numbers drawn from one connection give the same id exactly when the uint64 counter has wrapped
      around between them. */
  lemma RequestIdsCollide(agent: string, m: nat, n: nat)
    ensures RequestId(agent, m % WORD) == RequestId(agent, n % WORD) <==> m % WORD == n % WORD
    ensures m != n && 0 < m <= WORD && 0 < n <= WORD ==> RequestId(agent, m % WORD) != RequestId(agent, n % WORD)
    ensures WORD == 0x1_0000_0000_0000_0000
  {
    SuffixInjective(agent, agent, m % WORD, n % WORD);
  }

  class AgentConnection {
    const ID: string
    var requestID: nat
    var pending: map<string, nat>
    var pendingNil: bool
    var chans: seq<Chan>

    function View(): Table
      reads this
    {
      Table(ID, requestID, if pendingNil then None else Some(pending), chans)
    }

    constructor (id: string)
      ensures View() == Table(id, 0, Some(map[]), []) && View().Valid()
    {
      ID := id;
      requestID := 0;
      pending := map[];
      pendingNil := false;
      chans := [];
    }

    /** The atomic increment of `NextRequestID`, which wraps around like every uint64. */
    method NextRequestID() returns (id: string)
      requires View().Valid()
      modifies this
      ensures View() == old(View()).Next() && View().Valid()
      ensures id == RequestId(ID, View().counter)
    {
      requestID := if requestID + 1 == WORD then 0 else requestID + 1;
      id := ID + "-" + Itoa(requestID);
    }

    /** The section of `DispatchJob` that registers a new channel before the request is sent. */
    method RegisterPending(reqID: string) returns (ch: Option<nat>)
      requires View().Valid()
      modifies this
      ensures View() == old(View()).Register(reqID) && View().Valid()
      ensures ch == if old(pendingNil) then None else Some(old(|chans|))
    {
      if pendingNil {
        return None;
      }
      chans := chans + [EMPTY];
      pending := pending[reqID := |chans| - 1];
      ch := Some(|chans| - 1);
    }

    /** The deferred section of `DispatchJob`. */
    method CleanupPending(reqID: string)
      requires View().Valid()
      modifies this
      ensures View() == old(View()).Remove(reqID) && View().Valid()
    {
      if !pendingNil {
        pending := pending - {reqID};
      }
    }

    /** The section of `handleIncomingMessage` that looks the id of a response up and removes it. */
    method TakePending(reqID: string) returns (ch: Option<nat>)
      requires View().Valid()
      modifies this
      ensures ch == old(View()).Lookup(reqID)
      ensures View() == old(View()).Remove(reqID) && View().Valid()
      ensures ch.Some? ==> ch.value < |chans| && chans[ch.value] == EMPTY && !View().Holds(ch.value)
    {
      if !pendingNil && reqID in pending {
        ch := Some(pending[reqID]);
        pending := pending - {reqID};
      } else {
        ch := None;
        assert pendingNil || pending - {reqID} == pending;
      }
    }

    /** `ch <- &resp; close(ch)`: neither blocks nor panics on a channel that was taken from the map. */
    method Deliver(ch: nat, resp: Response)
      requires View().Valid() && ch < |chans| && chans[ch] == EMPTY && !View().Holds(ch)
      modifies this
      ensures View() == old(View()).Put(ch, Chan(Some(resp), true)) && View().Valid()
    {
      assert chans[ch].slot.None? && !chans[ch].closed; // the send has room and the channel is open
      chans := chans[ch := chans[ch].(slot := Some(resp))];
      assert !chans[ch].closed; // closed once
      chans := chans[ch := chans[ch].(closed := true)];
    }

    /** The response branch of `handleIncomingMessage` when nothing else runs in between. */
    method HandleResponse(resp: Response)
      requires View().Valid()
      modifies this
      ensures View().Valid()
      ensures var was := old(View());
              View() == match was.Lookup(resp.id)
                        case None => was
                        case Some(ch) => was.Remove(resp.id).Put(ch, Chan(Some(resp), true))
    {
      var ch := TakePending(resp.id);
      if ch.Some? {
        Deliver(ch.value, resp);
      } else {
        assert pendingNil || old(pending) - {resp.id} == old(pending);
      }
    }

    /** The loop of `Close` over the map: each channel still waiting is closed exactly once. */
    method DrainPending()
      requires View().Valid()
      modifies this
      ensures View() == old(View()).Drain() && View().Valid()
    {
      if pendingNil {
        return;
      }
      var todo := pending.Keys;
      while todo != {}
        invariant todo <= pending.Keys && pending == old(pending) && requestID == old(requestID) && !pendingNil
        invariant |chans| == old(|chans|)
        invariant forall c | 0 <= c < |chans| ::
                    chans[c] == if exists id | id in pending :: id !in todo && pending[id] == c
                                then old(chans[c]).(closed := true) else old(chans[c])
        decreases todo
      {
        var id :| id in todo;
        var c := pending[id];
        assert !chans[c].closed; // closing a closed channel would panic
        chans := chans[c := chans[c].(closed := true)];
        todo := todo - {id};
      }
      pending := map[];
      pendingNil := true;
      assert forall c | 0 <= c < |chans| :: chans[c] == old(View()).Drain().chans[c];
    }
  }
}
