# Hub and satellite agents: a verified model

The repository has two programs. A *hub* accepts WebSocket connections from *agents*, sends them jobs over
JSON-RPC 2.0, keeps job schedules and authorized agent keys, and forms a cluster with other hubs. An *agent* runs
jobs, keeps the results of scheduled tasks in a cache file until a hub is reachable, and moves from hub to hub when
connections fail. This project models the parts in which many things happen at once, and the sequential parts with
loops, arithmetic and text, and proves what they keep, reach and give back.

## How it is modelled

* **State machines.** Where goroutines interleave, a run is any sequence of events, and an event is one section under
  a lock, one channel operation or one message. `Step` gives the next state or says that the event cannot happen
  (it would block, or it would panic). The theorems are about all runs. This holds for one agent connection
  (`RpcSystem`), the map of connections and its lock (`Registry`), the cluster (`Cluster`), the cache queue
  (`DiskQueue`) and the reconnection loop (`Failover`). Histories (who owns a channel, which handler produced a
  reply, what was ever added to the queue) are part of the states but no event depends on them.
* **Classes.** What the source updates in place is a class: `PendingTable.AgentConnection`, `HubNode.Hub`,
  `DiskQueue.DiskCache`, `DiskQueue.Session`, `Failover.Agent`, `SnmpParams.SNMPParams`. Their methods have the loops
  and branches of the source and are proved equal to functions on values; the state machines use the same functions
  or the same transitions.
* **Sequential code with loops** is a method that is proved equal to a specification function, and the lemmas are
  about the function: device names, address merging, the key-file cascade, both output parsers, job forwarding.
* A 64-bit counter and the 64-bit clock arithmetic wrap around in the model as they do in the source
  (`PendingTable.WORD`, `Auth.Wrap64`). Text is a sequence of characters; keys are sequences of bytes.

| file | models |
|---|---|
| `Text.dfy`, `Numbers.dfy` | the operations of `strings`, `strconv` and `unicode` that are used, with round-trip lemmas; powers of two |
| `PendingTable.dfy`, `RpcSystem.dfy`, `RpcProofs.dfy`, `RpcTheorems.dfy` | pending calls of a connection, callers, write queue, agent handlers, reader and `Close` |
| `Registry.dfy` | `register`, `unregister` and `Close` around `h.mu` |
| `KeyFile.dfy`, `Auth.dfy` | base64, hex, the decoder cascade, the challenge, the decision of `ServeHTTP` |
| `HubNode.dfy`, `Cluster.dfy`, `Mesh.dfy`, `Cascade.dfy`, `SyncChain.dfy`, `Schedules.dfy`, `Keys.dfy`, `KeyConvergence.dfy`, `Joining.dfy`, `Outsiders.dfy`, `Forwarding.dfy` | one hub, the cluster, and its convergence, termination, validity, provenance, joining, admission and forwarding theorems |
| `DiskQueue.dfy`, `Failover.dfy` | store and forward, reconnection |
| `DeviceNames.dfy`, `DeviceSizes.dfy`, `Inventory.dfy`, `Hardware.dfy` | the VMware inventory |
| `Snmp.dfy`, `SnmpTables.dfy`, `SnmpArgs.dfy`, `SnmpParams.dfy`, `Patterns.dfy` | SNMP parameters, the tables and regular expressions that they are checked against, and their command line |
| `SnmpOutput.dfy`, `Traceroute.dfy` | the output parsers |

## Where the code does not do what one would expect

Each of these is stated with its exact condition.

* **Correlation of replies** holds in all runs with at most `limit` requests on a connection and notices stamped
  `clock` or later if and only if `limit` is at most 2^64 and either the agent's id is neither `sync` nor `failover` or
  the requests cannot reach the stamps. Past 2^64 requests ids repeat, and the late answer to a call that was given up
  goes to the call that got its id. The hub's own notices carry ids `sync-<nanoseconds>` and `failover-<nanoseconds>`,
  so an agent of that name answers a notice under the id of its n-th call if the clock reads n
  (`RpcTheorems.CorrelationExactly`, `RpcTheorems.LateAnswer`, `RpcTheorems.NoticeAnswersCall`).
* **Replacing a connection**: `register` releases the lock exactly when there is no connection under the id. Its log
  message promises to replace an existing one, but `old.Close()` then waits for the lock that `register` holds
  (`Registry.ReplacementNeverCompletes`).
* **Clock skew**: besides the two minutes either way the check admits one more timestamp, 2^63 seconds ago, whose
  difference to the clock cannot be negated in 64 bits (`Auth.FreshExactly`).
* **Device names** are distinct exactly when no device whose base name is taken gets a suffixed name that is the base
  name of an earlier device (`DeviceNames.DistinctExactly`).
* **Traceroute**: a hop is recorded as measured exactly when it stayed silent, or its first probe was answered and
  every later answer came from the same host. A second router's times are filed under the first
  (`Traceroute.UnderstoodExactly`).
* **A new failover list** of several hubs is entered at its first hub exactly when it comes between sessions, and
  otherwise at its second, because the end of the session still advances the index (`Failover.AfterUpdate`). Since
  `connectAndRun` waits for its handlers before it returns, lists come during sessions only, and no list of several
  hubs is ever entered at its first (`Failover.NeverFirst`).
* **An entry of the cache is written twice** exactly when some restart stops a flush that has written something and
  not yet removed it, and something is written afterwards (`DiskQueue.RepeatsExactly`).
* **A size in a summary** is the first that the searches for KB, MB and GB, in this order, come to, and what each
  search finds is determined by the text before a printed size, the size and the text behind it
  (`DeviceSizes.FindPrinted`). A comma in front of a unit counts as a number without digits, so "40 GB, KB" gives 0
  (`DeviceSizes.CommaBeforeUnit`).
* **A stored agent key** is replaced exactly by a key message from the cluster with another key for the id
  (`Keys.KeyChangesExactly`).

## Model

| member | source | states |
|---|---|---|
| PendingTable.RequestIdsCollide | hub/server.go:103-106 | Two numbers drawn on one connection give the same request id exactly when the counter has wrapped around modulo 2^64 between them; the first 2^64 ids are distinct. |
| PendingTable.AgentConnection.constructor | hub/server.go:73-82 | A connection starts with counter 0 and an empty, open map of pending calls. |
| PendingTable.AgentConnection.NextRequestID | hub/server.go:103-106 | Advances the counter by one with wrap-around and returns the id of the new value; nothing else changes. |
| PendingTable.AgentConnection.RegisterPending | hub/server.go:865-873 | Adds a fresh open, empty channel under the id, or refuses and changes nothing when the map is nil. |
| PendingTable.AgentConnection.CleanupPending | hub/server.go:875-882 | Removes the id and touches no channel; does nothing on a closed connection. |
| PendingTable.AgentConnection.TakePending | hub/server.go:181-192 | Looks the id up and removes it; a channel that comes out is open, empty and no longer in the map. |
| PendingTable.AgentConnection.Deliver | hub/server.go:187-188 | Fills the slot and closes the channel; the send has room and neither operation panics. |
| PendingTable.AgentConnection.HandleResponse | hub/server.go:180-192 | A response with a known id goes into that call's channel only, any other is dropped without a change. |
| PendingTable.AgentConnection.DrainPending | hub/server.go:91-97 | Closes exactly the channels still in the map, each once, and drops the map. |
| RpcProofs.OwnStep | hub/server.go:85-100 | Every event keeps the ownership invariant: channels belong to calls one to one, mapped channels are open and empty, the reader's channel is out of the map, open, and empty until it fills it. |
| RpcProofs.IdsStep | hub/server.go:103-106 | Every event keeps turns and ids in step: call number n of the connection carries the id of counter value n modulo 2^64. |
| RpcProofs.IdsDiffer | hub/server.go:103-106 | Until the counter wraps around, two different calls have different ids. |
| RpcProofs.LiveStep | hub/server.go:865-909 | Every event keeps the liveness invariant: the channel of each waiting call is in the map, in the reader's hands, filled or closed. |
| RpcTheorems.ExitsStep | hub/server.go:85-97 | Every event keeps the exit counts: a channel out of the map has been taken out exactly once. |
| RpcTheorems.NoPanic | hub/server.go:182-190 | In every run, forged replies and reused ids included, the reader's send finds an open empty slot, its close finds an open channel, and every channel that `Close` would close is open. |
| RpcTheorems.OneExit | hub/server.go:85-100 | In every run each registered channel is either in the map or was taken out by exactly one of the reader, `Close` and the caller's deferred cleanup. |
| RpcTheorems.CloseFinishes | hub/server.go:85-100 | From every reachable state `Close` can run to its end, whatever is pending: the map is gone, every channel that was in it is closed, and nothing else has changed. |
| RpcTheorems.NoStrandedCaller | hub/server.go:85-100 | From the moment `Close` begins, every call past registration can return within five further events and without being cancelled: with its answer if the reader has got hold of it, otherwise with an error. |
| RpcTheorems.CancelEnds | hub/server.go:884-909 | A cancelled context ends every call past registration with an error within two events, at any time. |
| RpcTheorems.CallsGoOn | hub/server.go:846-909 | What a call can do next in each phase: its frame is queued exactly while fewer than 256 wait, a gone connection is noticed exactly from the moment `Close` begins, and it stops waiting exactly when its channel has an answer or is closed. |
| RpcTheorems.QueueBounded | hub/server.go:77-77 | In every run at most 256 messages wait to be written. |
| RpcTheorems.CallCompletes | hub/server.go:846-910 | Every call can be answered: while `Close` has not finished and its handler is at work, the writer, the agent and the reader can go on by themselves until the call returns an answer. |
| RpcTheorems.NoLateRegistration | hub/server.go:865-871 | After `Close` a call that tries to register ends with an error and gets no channel. |
| RpcTheorems.MatchedReplyIsGenuine | hub/server.go:180-190 | A reply that the reader matches to a channel was computed by the agent for the call that waits on that channel, unless the agent is called like a notice prefix and requests have caught up with the notice stamps. |
| RpcTheorems.Correlation | hub/server.go:846-910 | In every interleaving with at most 2^64 requests, what `DispatchJob` returns is what the agent's handler computed for that very call's job and params, for every agent not called like a notice prefix, and for the others as long as fewer requests were issued than the least notice stamp. |
| RpcTheorems.NoticeAnswersCall | hub/server.go:535-539 | For an agent called `sync` or `failover` and every n from 1 to 2^64 - 1 there is a run in which the n-th call returns the answer to a notice stamped n. |
| RpcTheorems.LateAnswer | hub/server.go:865-882 | Past 2^64 requests, for any agent and without notices, the late answer to a call that was given up is returned by the call that got its id. |
| RpcTheorems.CorrelationExactly | hub/server.go:462-498 | For every clock reading and every number of requests: replies are correlated in all runs with notices stamped no earlier and no more requests, if and only if there are at most 2^64 of them and the agent's id is neither `sync` nor `failover` or the requests cannot reach the stamps. |
| Registry.ExactStep | hub/server.go:272-293 | Every event keeps the map of connections exact: it holds precisely the live and closing connections, each under its own id. |
| Registry.FinishedIsAbsent | hub/server.go:288-293 | In every run a connection is in the map exactly while it is live or closing, and `unregister` by id removes that connection and no other. |
| Registry.ReplacementNeverCompletes | hub/server.go:273-286 | While `register` holds the lock it can be released if and only if no connection exists under the id; otherwise every continuation keeps the lock and the map as they are. |
| Registry.ReconnectBlocks | hub/server.go:277-281 | A second login under an id that is still connected reaches such a state. |
| Registry.CloseFrees | hub/server.go:85-100 | While the lock is free a live connection can always close, and then exactly its id is free. |
| Registry.FreeConnects | hub/server.go:272-286 | While the lock is free a login under a free id can always complete, and then exactly this connection is under it. |
| KeyFile.ChallengeInjective | common/crypto.go:141-143 | For accepted agent ids the challenge text determines both the id and the timestamp. |
| KeyFile.Base64RoundTrip | common/crypto.go:119-129 | Text written in one of the four base64 variants is read back by that variant, and any other variant refuses it or reads the same bytes. |
| KeyFile.DecodesSpellings | common/crypto.go:124-129 | No base64 variant decodes anything but spellings in its alphabet with its padding. |
| KeyFile.Alphabets | common/crypto.go:124-124 | The two base64 alphabets of RFC 4648, sections 4 and 5. |
| KeyFile.DecodeHexOf | common/crypto.go:110-117 | Hex text decodes to some bytes if and only if it spells them, two digits each, in any mix of cases. |
| KeyFile.LoadPublicKey | common/crypto.go:85-132 | The cascade PEM, hex, four base64 variants, in this order, first key of the right size wins. |
| KeyFile.CascadeFindsKey | common/crypto.go:110-129 | For text that writes a 32-byte key in hex or any base64 variant, no earlier decoder of the cascade claims it for another key. |
| KeyFile.KeyFileRoundTrip | common/crypto.go:85-132 | A 32-byte key in any of these forms, with white space around it, loads back to itself. |
| KeyFile.SavedKeyLoads | common/crypto.go:152-171 | A key file that was written in PEM loads back, with white space around it, exactly when the key has 32 bytes, for every PEM reader that reads back what the writer wrote. |
| KeyFile.LoadDecided | common/crypto.go:96-132 | A blank file and an unusable PEM block never load, a PEM key loads as it is, and whatever loads without PEM has 32 bytes. |
| Auth.FreshExactly | hub/server.go:960-969 | The 64-bit skew check admits exactly the timestamps within 120 seconds and the one 2^63 seconds ago. |
| Auth.AcceptedExactly | hub/server.go:913-1070 | The acceptance law for every state of the key file: a request is accepted if and only if its id is valid and it meets the token, the signature or the registration conditions, and the verdict says which and for which key; all others get 400 for the id or 401. |
| Auth.StoredKeyDecides | hub/server.go:971-1057 | Once a key file exists, a request is accepted if and only if it is signed for this id and a fresh timestamp by the stored key; the token is no way in and nothing is registered. |
| Auth.RegistersExactly | hub/server.go:960-1025 | A login registers a key if and only if the hub has none for the id, the registration secret is shown, the timestamp is fresh and the challenge is signed for the key presented. |
| Auth.TokenExactly | hub/server.go:1047-1070 | The token alone lets an agent in if and only if it is the configured one, no signature is offered and the hub has no key for the id. |
| Auth.RegistrationStoresOwnKey | hub/server.go:992-1025 | An agent that signs with its own key and shows the secret registers exactly that key. |
| HubNode.Hub.constructor | hub/server.go:252-270 | A new hub knows the non-empty seeds, and no schedules. |
| HubNode.Hub.AddPeer | hub/server.go:561-591 | Adds a peer other than itself, always starts a full sync to it, and announces itself only to a peer that is new. |
| HubNode.Hub.HandleRegistration | cmd/hub/main.go:207-235 | Taken if and only if there is a URL and the token is the configured, non-empty one, and then it does what AddPeer does and answers with the peers known then; a refusal changes and sends nothing. |
| HubNode.Node.WrongTokenIgnored | cmd/hub/main.go:219-304 | No registration, key, schedule or deletion with a token other than the hub's changes or sets off anything. |
| HubNode.Node.RightTokenAdmitted | cmd/hub/main.go:219-234 | A registration with the hub's token makes its URL a peer and sets off what meeting a peer does, and the answer that is wanted. |
| Outsiders.StrangersChangeNothing | cmd/hub/main.go:207-304 | Over whole runs in which strangers inject any requests with wrong tokens, delivered or lost in any order: every hub ends in a state that the cluster reaches without them by the same other events. |
| HubNode.Hub.RegisterWithPeers | hub/server.go:665-686 | Sends one registration to every peer but itself, and none without a URL of its own. |
| HubNode.Hub.HandlePeerList | hub/server.go:693-709 | The rest of the exchange: status 200 starts a full sync to the peer, and every URL on a list that can be read is learnt; any other status changes nothing. |
| HubNode.Hub.LearnPeers | hub/server.go:701-705 | The loop over the list is AddPeer for each URL in turn, the hub's own left out. |
| HubNode.Node.Explained | hub/server.go:332-353 | Whatever a handled message sets off is determined by it and by the hub; in particular sync messages set off nothing, and announcements come only from meeting a peer. |
| Cluster.ReplyRun | hub/server.go:686-706 | Delivering the reply and learning its URLs one after the other is what the loop over the list does, for state and messages. |
| HubNode.Hub.Broadcast | hub/server.go:714-744 | One copy to every peer but the hub itself. |
| HubNode.Hub.PostSchedule | cmd/hub/main.go:156-189 | Created if and only if it has an id, an agent and a job and is to run once, at a positive interval, or at a given time; then it is stored under its id and broadcast, otherwise nothing changes. |
| HubNode.Hub.DeleteSchedule | hub/server.go:318-330 | Removes the schedule and broadcasts the deletion, or does neither when the id is unknown. |
| HubNode.Hub.SyncAllToPeer | hub/server.go:605-662 | Sends one copy of every key that loads and of every schedule, to no one else. |
| HubNode.Hub.SyncKeys | hub/server.go:610-639 | Sends one copy of every key that loads from its file. |
| HubNode.Hub.SyncSchedulesTo | hub/server.go:641-661 | Sends one copy of every schedule. |
| HubNode.Hub.HandleSync | cmd/hub/main.go:237-304 | Sync requests with the cluster token change exactly the named entry and are never passed on. |
| HubNode.Hub.ServeHTTP | hub/server.go:913-1070 | Accepts exactly who meets the acceptance law, stores a key only for a registration, and then sends it to every peer; any other request leaves the hub unchanged. |
| Cluster.RunGrows | hub/server.go:561-569 | In every run hubs keep their URL and configuration and never forget a peer. |
| Cluster.PossibleExactly | hub/server.go:665-712 | Which events of the cluster are possible: anything at a hub of it, the delivery of any message in flight, and the loss of any request or answer. |
| Cluster.OutsideMessage | hub/server.go:356-420 | What a tick, a request or a login sends is one message, to peers of the hub at which it happens. |
| Cluster.ClosedStep | hub/server.go:665-712 | If seeds are hubs of the cluster, no event ever makes a hub or a message mention a URL outside it. |
| Mesh.RunExchanging | hub/server.go:686-706 | In a lossless run every registration that a tick sends is answered with the peers that the other hub had, and they are all learnt. |
| Mesh.RoundSquares | hub/server.go:665-712 | One lossless round turns the relation "knows" into at least itself, its inverse and its square. |
| Mesh.MeshConvergence | hub/server.go:561-712 | n hubs whose seeds connect them weakly all know each other after 1 + log2(n - 1) lossless rounds, logarithm rounded up. |
| Mesh.QuietRoundIsComplete | hub/server.go:665-712 | If a lossless round adds nothing, any two hubs that are weakly connected know each other. |
| Cascade.EmitsCost | hub/server.go:574-590 | What one delivery sets off costs less than the delivered message, plus one announcement if it introduced a new peer. |
| Cascade.MissingAfter | hub/server.go:566-569 | A first-time peer takes one off the number of pairs of hubs that have not met; no delivery adds any. |
| Cascade.PotentialFalls | hub/server.go:561-662 | Every delivery, in whatever order, makes the measure over missing pairs, registrations, lists and sync messages strictly smaller. |
| Cascade.CascadeEnds | hub/server.go:561-662 | Any sequence of deliveries is at most as long as the measure has fallen. |
| Cascade.CascadesTerminate | hub/server.go:561-712 | Between ticks and outside requests the number of deliveries is bounded whatever their order, and quiescence is reachable. |
| Cascade.RoundExists | cmd/hub/main.go:311-322 | From every state a lossless round exists, so the round theorems are not empty. |
| Schedules.RunKeepsGood | cmd/hub/main.go:156-186 | In every run every schedule on every hub is stored under its own id and passes the checks of `POST /schedules`, though the sync endpoint repeats none of them. |
| Schedules.RunKeepsGrowOnly | hub/server.go:307-339 | With each id added with one content and none deleted, every hub's map is at all times part of everything added, and no hub loses a schedule. |
| Schedules.DeletionArrives | hub/server.go:391-420 | A deletion is sent to every peer, which then drops exactly this schedule. |
| Schedules.ScheduleConvergence | hub/server.go:641-661 | A lossless round over a full mesh gives all hubs the same map, with everything in it that any hub had. |
| Schedules.UnionEverywhere | hub/server.go:422-432 | From empty hubs, the map on every hub at the end of the round is exactly the union of all that was added before and during it. |
| Joining.PeerGetsSchedules | hub/server.go:573-590 | Once a registration has been admitted and everything in flight delivered, the new peer has every schedule of the hub, without any tick. |
| Joining.PeerGetsKeys | hub/server.go:573-590 | Likewise every key. |
| Joining.PeersMeet | hub/server.go:573-590 | A hub that admits a new peer announces itself, so both know each other once everything has been delivered. |
| SyncChain.SyncingStep | hub/server.go:683-696 | Nothing but the full sync itself ends the chain tick, registration, answer, list, full sync, whatever else happens in between. |
| Keys.RegistersAt | hub/server.go:992-1025 | A key that a run registers is registered at one moment, in a state that the run has then reached. |
| Keys.KeyProvenance | hub/server.go:747-765 | After any run every stored key was stored under that id on some hub at the start, or some hub that had no key for the id registered it at a login that showed the registration secret and a fresh challenge signed for this key. |
| KeyConvergence.RunKeyed | hub/server.go:747-765 | As long as no id is registered with two keys, every hub has at all times the one key for each id it knows, and none is lost. |
| KeyConvergence.KeysConverge | hub/server.go:610-639 | A lossless round over a full mesh, with further logins in between, gives all hubs the same keys, with none that any hub had missing or replaced. |
| Keys.SyncedKeyArrives | hub/server.go:610-639 | A full sync sends every key that loads, and the peer then has exactly that key under that id. |
| Keys.RegisteredKeyArrives | hub/server.go:715-744 | A newly registered key goes to every peer, which stores the key that was proved at the login. |
| Keys.KeyStays | hub/server.go:747-765 | No run removes a stored key. |
| Keys.PinnedForever | hub/server.go:1038-1057 | Once a hub has a key for an id, no later login under the id is accepted by token or registers a key; an accepted one is signed for the key that the hub holds. |
| Keys.KeyChangesExactly | hub/server.go:747-765 | What a hub has stored for an id is replaced if and only if a key message from the cluster with another key for it is handled; no other event changes it. |
| KeyConvergence.FirstKeyStays | hub/server.go:747-765 | As long as no id is registered with two keys, the key stored first is there for ever. |
| Forwarding.DispatchJob | hub/server.go:820-844 | The hub with the agent answers; otherwise distinct peers other than itself are asked, at most as many as it has, until one answers within what is left of the shared time; without an answer all were asked and each failed in its turn. If no peer uses up the time, there is an answer exactly when some peer has the agent and gets an answer from it. |
| Forwarding.DispatchJobToPeer | cmd/hub/main.go:119-131 | A forwarded job is never forwarded again, and its answer comes, in time, from an agent that is connected to that peer. |
| DiskQueue.DiskCache.Add | agent/cache.go:24-35 | Appends to the list in the file; a file that cannot be read is replaced by the new entry alone. |
| DiskQueue.DiskCache.RemoveOldest | agent/cache.go:46-60 | Drops the first n entries of the list as it is now, and the file when nothing is left. |
| DiskQueue.FlushCache | agent/client.go:872-916 | Undisturbed, a session gets the longest prefix that its writes allow and exactly that prefix leaves the cache. |
| DiskQueue.InvStep | agent/client.go:872-916 | Every event keeps the queue invariant: added = removed + cached, the snapshot is a prefix of the cache, what was written under a position is the entry added there, and what a flush has written lies ahead of what it will remove. |
| DiskQueue.Conservation | agent/client.go:836-916 | In every interleaving of tasks, flushes, failed writes and restarts: added = removed followed by cached, every write is an entry that was added, every entry that left the file was written to a session, and no entry is written before one that was added ahead of it. |
| DiskQueue.FlushCanEnd | agent/client.go:911-915 | A flush that is under way can always end, and then the cache has lost exactly the entries that it has written. |
| DiskQueue.CanBeEmptied | agent/client.go:872-916 | From every reachable state with entries and no flush under way, a flush that no write stops removes the file, and everything added has been written and removed. |
| DiskQueue.RepeatsExactly | agent/client.go:888-915 | All entries written in a run are written once if and only if no restart stops a flush between a write and the removal with something written afterwards; then the sessions got a prefix of what was added, in order. |
| DiskQueue.ExactlyOnceWithoutRestart | agent/client.go:888-915 | Without a restart, moreover, exactly the entries that have left the file have been written between flushes. |
| DiskQueue.RestartRepeats | agent/client.go:904-914 | A restart between a write and its removal makes the agent write the entry twice. |
| Failover.HubURLsRoundTrip | agent/client.go:71-80 | A non-empty list of trimmed URLs without commas is read back from its comma-separated form. |
| Failover.HubURLsOf | agent/client.go:71-80 | For any list of parts: the URLs are the trimmed parts that are not blank, in order, and `ws://localhost:8080/ws` if there are none. |
| Failover.Agent.constructor | agent/client.go:71-93 | The list holds the non-blank parts, or the default URL when there are none. |
| Failover.Agent.Pick | agent/client.go:141-143 | Is the `Pick` transition of the loop machine, and the URL is one of the list. |
| Failover.Agent.OnConnect | agent/client.go:146-148 | Is the `Connected` transition of the loop machine: the next wait starts over. |
| Failover.Agent.Advance | agent/client.go:149-166 | Is the `Ends` transition of the loop machine: next index modulo the current list, the wait, the doubled and capped backoff. |
| Failover.Agent.UpdateFailoverURLs | agent/client.go:367-373 | A non-empty list replaces the old one and resets the index; an empty one changes nothing. |
| Failover.IndexAndBackoff | agent/client.go:122-171 | In every run with lists arriving at any moment the index is inside the current list and the wait after the k-th failure since start or connection is min(2^k, 30) seconds. |
| Failover.WaitExactly | agent/client.go:122-171 | Whenever an attempt ends in a run, the wait is min(2^k, 30) seconds, with k counted from the events as the failures since the start or the last connection, and the next attempt is possible after it. |
| Failover.TriesInTurn | agent/client.go:141-153 | While the list stays, the loop tries it in cyclic order from the current index. |
| Failover.EachOnce | agent/client.go:141-153 | On an unchanged list of n URLs any n consecutive attempts try each of them once. |
| Failover.AfterUpdate | agent/client.go:149-153 | In every run after a new list and until the next one: the first attempt goes to its first URL if the list came between sessions, and otherwise to its second, or to its only one. |
| Failover.NeverFirst | agent/client.go:285-287 | If lists come during sessions only, no list of several hubs is entered at its first, whatever happened before. |
| DeviceNames.UniqueName | agent/vmware_hardware.go:296-308 | The nested loops return the base name if no device has that name, and otherwise the base name with one more than the number of earlier devices with that base. |
| DeviceNames.NameDevices | agent/vmware_hardware.go:294-318 | The loop over the devices gives the names of the specification, in order. |
| DeviceNames.NameAt | agent/vmware_hardware.go:384-409 | A name depends on the devices before it and is never changed afterwards. |
| DeviceNames.TakenExactly | agent/vmware_hardware.go:297-298 | Whether a name is taken, told from the base names alone: an earlier device has it as its base name, or gets it because its own base name is taken. |
| DeviceNames.DistinctExactly | agent/vmware_hardware.go:296-308 | All names are distinct if and only if no device whose base name is taken gets a suffixed name that is the base name of an earlier device, a condition on the base names. |
| DeviceNames.UniqueNames | agent/vmware_hardware.go:384-398 | If no base name is another followed by a dash and a number, all names differ and the k-th device with base b is called b for k = 1 and b-k otherwise. |
| DeviceNames.DistinctKept | agent/vmware_hardware.go:294-308 | Base names that differ are kept as names. |
| DeviceNames.NamesCanRepeat | agent/vmware_hardware.go:296-308 | Devices with bases b-2, b, b get a repeated name. |
| DeviceSizes.FindPrinted | agent/vmware_hardware.go:19-24 | In a text with a printed size in it, each search finds what stands before the size, else the size if it is in the unit wanted, else what stands behind; the text before must not end in a digit, comma or point. |
| DeviceSizes.SizeOfPrinted | agent/vmware_hardware.go:197-211 | A comma-grouped number with unit KB, MB or GB is read exactly and rounded to MB, whatever else the summary holds, as long as the searches find nothing before it in its unit or an earlier one and nothing behind it in an earlier one. |
| DeviceSizes.CommaBeforeUnit | agent/vmware_hardware.go:198-201 | A later ", KB" makes any size in GB read as 0. |
| DeviceSizes.SizeOfFraction | agent/vmware_hardware.go:206-209 | A size in GB with a decimal fraction is read with its fraction, under the same condition. |
| DeviceSizes.SizesAgree | agent/vmware_hardware.go:266-275 | For n > 0 the KB field n, the bytes field 1024 n and the summary "n KB" give one size, and it is the multiple of 1024 nearest to n. |
| DeviceSizes.SizeFallsBack | agent/vmware_hardware.go:266-275 | A capacity field that is not positive counts as none, and without one the summary decides. |
| DeviceSizes.NoSize | agent/vmware_hardware.go:197-211 | A summary in which no search finds anything gives 0. |
| DeviceSizes.UnitsAgree | agent/vmware_hardware.go:197-211 | The same capacity in KB, MB or GB gives the same size. |
| Inventory.BackingFileRoundTrip | agent/vmware_hardware.go:277-292 | Datastore and image name come back from the file name put together from them. |
| Inventory.PlainFile | agent/vmware_hardware.go:277-292 | Without brackets there is no datastore, and the image is what follows the last slash. |
| Inventory.OddBrackets | agent/vmware_hardware.go:281-283 | An unclosed bracket, or one around a line break, gives no datastore. |
| Inventory.FindIP | agent/vmware_hardware.go:450-457 | Found if and only if some entry has the address. |
| Inventory.MergeIPs | agent/vmware_hardware.go:358-381 | The two loops compute the merged list of the specification. |
| Inventory.ConfiguredInOrder | agent/vmware_hardware.go:358-373 | The `ipConfig` entries are taken one by one, in order. |
| Inventory.ConfiguredOne | agent/vmware_hardware.go:358-373 | Each keeps its own prefix and its trimmed address; a blank one is left out. |
| Inventory.MergedNext | agent/vmware_hardware.go:375-381 | Each plain address is added at the end, without a prefix, unless it is blank or there already. |
| Inventory.MergedHas | agent/vmware_hardware.go:358-381 | The merged list has exactly the non-empty trimmed addresses of both sources. |
| Inventory.MergedAddsOnce | agent/vmware_hardware.go:375-381 | The `ipConfig` entries come first with their prefixes, and no address is added that is there already. |
| Inventory.PlacePrimary | agent/vmware_hardware.go:413-426 | The primary address ends up at some interface, is added only if it was at none, and then to the first one alone. |
| Hardware.ParseDevices | agent/vmware_hardware.go:248-426 | One disk for each disk device and one interface for each network device, in order, with unique names made from those before; a device can be both or neither. The primary address goes to the first interface only if it is at none. |
| Hardware.AddDisk | agent/vmware_hardware.go:277-318 | The next disk: its label, size, file, datastore and image are its own, and its name depends on the disks before it. |
| Hardware.AddNic | agent/vmware_hardware.go:321-409 | The next interface, with name, MAC and addresses of the first guest report that matches it. |
| Hardware.OnlyInOrder | agent/vmware_hardware.go:248-264 | Other devices between the disks, or between the interfaces, do not matter. |
| Hardware.DiskByLabel | agent/vmware_hardware.go:264-322 | A label that speaks of a hard disk, a network adapter or ethernet, in any case, makes a device a disk or an interface. |
| Hardware.DiskShown | agent/vmware_hardware.go:264-318 | A disk on "[datastore] directory/image" of n KB shows its datastore, its image and a size within half a megabyte, and is called after its image if and only if no disk before it is. |
| Hardware.NumberedDisks | agent/vmware_hardware.go:292-308 | Disks without file and label are called "Hard disk 1", "Hard disk 2" and so on, all differently. |
| Hardware.DiskNamesDistinct | agent/vmware_hardware.go:294-308 | The disks of a machine have distinct names if and only if no base names clash. |
| Hardware.NicShown | agent/vmware_hardware.go:332-409 | An interface has exactly the addresses of the first guest report that matches it by key or MAC, and its guest name; without a report it has none and is called after its network, or else "Network adapter n". |
| Snmp.NormalExactly | common/metrics.go:104-250 | Parameters are accepted and left as they are if and only if they are in normal form. |
| Snmp.ValidatedNormal | common/metrics.go:104-250 | Whatever passes validation is in normal form afterwards. |
| Snmp.Idempotent | common/metrics.go:104-250 | Validating accepted parameters again changes nothing. |
| Snmp.RestKept | common/metrics.go:135-234 | Validation never alters a passphrase and leaves the fields of the other versions alone. |
| SnmpTables.ValidatedExactly | common/metrics.go:104-250 | For every input the error is the first problem in the order of the checks, and an input without one is rewritten as literal tables of versions, levels, protocols and defaults say. The passphrases decide a missing level. |
| Snmp.HostWithPort | common/metrics.go:110-114 | The host of "host:port" is the host. |
| Snmp.BracketedWithPort | common/metrics.go:110-114 | So is that of "[host]:port", also if it has colons. |
| Snmp.HostDecided | common/metrics.go:110-114 | Any other target is a host as it stands. |
| Patterns.HostNameExactly | common/metrics.go:13-13 | The model's host names are the matches of the regular expression. |
| Patterns.OIDExactly | common/metrics.go:16-16 | So are its OIDs. |
| Patterns.WordsExactly | common/metrics.go:19-26 | So are its communities, user names and context names, and agent ids in hub/server.go. |
| Patterns.EngineExactly | common/metrics.go:27-27 | Engine ids are alphanumeric: the optional 0x of the expression makes no difference. |
| Patterns.PassphraseExactly | common/metrics.go:25-25 | The passphrases that pass are the matches of the regular expression. |
| SnmpParams.SNMPParams.Validate | common/metrics.go:104-250 | The error, and the fields after the call, also after a failure, are those of `Validated`, of which `SnmpTables.ValidatedExactly` and the rows above speak. |
| SnmpParams.SNMPParams.BuildCLIArgs | common/metrics.go:253-296 | The appends build the arguments of the specification. |
| SnmpArgs.ArgsRoundTrip | common/metrics.go:253-296 | From validated parameters a reader of the option grammar recovers exactly the fields relevant to version and security level, and neither positional starts with a dash. |
| SnmpArgs.HostNoDash | common/metrics.go:110-120 | An accepted target does not start with a dash, whatever port it carries. |
| SnmpOutput.ParseSNMPWalkOutput | agent/client.go:589-628 | The loop over the lines collects the entries of the specification. |
| SnmpOutput.LineRoundTrip | agent/client.go:604-624 | A printable entry comes back from its line. |
| SnmpOutput.NoEquals | agent/client.go:604-605 | A line without "=" gives no entry. |
| SnmpOutput.NoKind | agent/client.go:609-618 | A right-hand side without ":" is the value, trimmed, of kind UNKNOWN. |
| SnmpOutput.WithKind | agent/client.go:605-624 | Otherwise OID, kind and value are the trimmed texts before the first "=", before the first ":" after it, and behind. |
| SnmpOutput.ParsedPrintable | agent/client.go:604-624 | Every entry that the parser makes is printable: trimmed, without newline, no "=" in the OID, no ":" in the type. |
| SnmpOutput.WalkRoundTrip | agent/client.go:597-625 | Printing a list of entries and parsing the text gives the list back if and only if every entry is printable. |
| SnmpOutput.Reparse | agent/client.go:589-628 | Parsing any output, printing and parsing again changes nothing. |
| Traceroute.CollectRTTs | agent/client.go:713-724 | The inner loop collects each number followed by "ms", in order, skipping stars. |
| Traceroute.ParseTracerouteLine | agent/client.go:673-726 | One turn of the outer loop. |
| Traceroute.ParseTracerouteOutput | agent/client.go:665-730 | The loop over the lines collects the hops of the specification. |
| Traceroute.RTTsOfProbes | agent/client.go:713-724 | The times of all answered probes are collected in order, whichever routers are named and whatever notes stand between them. |
| Traceroute.HopUnderstood | agent/client.go:682-726 | A printed hop whose first probe was answered is read with the host and address of that answer and the times of all answers; one whose first probe was lost is read as silent. |
| Traceroute.UnderstoodExactly | agent/client.go:697-726 | The record says what was measured if and only if the hop stayed silent, or its first probe was answered and every later answer came from the same host and address. |
| Traceroute.TwoRouters | agent/client.go:704-720 | When a second router answers at a hop its time is recorded for the first. |
| Traceroute.FieldsOfTrim | agent/client.go:674-682 | Trimming a line does not change its fields. |
| Traceroute.SpreadIsLine | agent/client.go:682-685 | Whatever white space separates the fields, the line has these fields. |
| Traceroute.NoiseIgnored | agent/client.go:673-690 | A blank line, a header, a line of one field and a line whose first field is no number give no record. |
| Traceroute.OutputRoundTrip | agent/client.go:665-730 | A whole output, with any such lines between those of the hops, gives one record per hop in order, and each is right if and only if its hop stayed silent, or answered its first probe and every later one from the same host. |
| Text.ItoaInjective | agent/vmware_hardware.go:305 | Decimal printing is injective. |
| Text.AtoiOfItoaInt | agent/client.go:687-687 | Every number of 64 bits is read back from its decimal form with its sign, and others are refused. |
| Text.SuffixInjective | hub/server.go:105 | "text-number" determines the text and the number. |
| Text.TrimAround | agent/client.go:73 | Trimming removes exactly the surrounding white space. |
| Text.SplitOfLines | agent/client.go:597 | Lines without newlines come back when their text is split. |

## Left out

General:

- Sockets, HTTP, TLS, JSON, processes, logging, configuration, flags and the `/agents` endpoint. A message arrives
  whole or not at all; a header and its query parameter are one field of a request.
- Ed25519, PEM and X.509 are parameters: `verify` is any function of key, challenge and signature; a PEM reader is any
  function that finds no block in text without a blank (`KeyFile.PemNeedsBlank`), and reader and writer are any pair
  that fits together (`KeyFile.PemReadsBack`).
- `net.ParseIP` and `strconv.ParseFloat` are parameters with the laws `Snmp.ParsesAddresses` and `Traceroute.Prints`.
- `float64` is modelled by real numbers in `DeviceSizes`, and the conversion to `int64` is taken to be in range there.
- Letter case is mapped by every rule with an ASCII result; other letters are left alone, which no comparison in the
  modelled code can tell.

Agent connections:

- Ping frames and deadlines. The agent's jobs are any text; a reply is the text that the handler wrote, and a handler
  that writes an error writes such a text too. Of the agent's own requests only metric submissions are modelled.
- RpcTheorems.Correlation: notice stamps are any numbers from some clock reading on; it assumes that only the
  modelled request handler writes to the agent's end of the connection, a forging agent is covered by the ownership
  theorems alone.
- RpcTheorems.OneExit: stated below 2^64 requests per connection, the point from which ids repeat.
- Time stamps of notices are natural numbers, so clocks before 1970 are not modelled.
- RpcTheorems.NoStrandedCaller: says that a call can finish without outside help, as RpcTheorems.CloseFinishes and
  RpcTheorems.CallCompletes do; that the scheduler runs it is not stated.
- Progress of a reconnect under an id that is still connected: it is proved that there is none.

Cluster:

- Keys and schedules reach a peer in one message each; the files of one sync are read in one step.
- Failing directory creation or file writes on a hub, and answers other than 200 to a sync request, which the sender
  ignores. A lost registration stands for a failing one.
- Keys.PinnedForever: requests for one id are handled one at a time, so two first logins at the same moment are not
  modelled.
- Mesh.MeshConvergence: hubs have distinct non-empty URLs, share one non-empty token, and seeds are URLs of the
  cluster.
- Convergence of schedules when ids are deleted or added again with other contents: there are no versions, and a full
  sync can bring a deleted entry back.
- Sending schedule lists to agents, "at" schedules that an agent repeats, and which of several lists runs there.
- Forwarding.DispatchJob: what the agent on a hub answers, and how long a request to a hub takes, is fixed during one
  dispatch; a dispatch has any amount of time, which all its forwards share. The peers are asked in any order.
- Joining.PeerGetsSchedules: as in the convergence theorems, ids keep one content each and none is deleted, and no
  message is lost; Joining.PeerGetsKeys likewise for keys.
- KeyConvergence.KeysConverge: every hub has a key directory, all its files load, and no id is registered with two
  keys; nothing is claimed about ids with two.

Agent:

- DiskQueue.Conservation: the cache file stays readable, saves succeed and submissions can be marshalled; a successful
  write is not proof that the hub received the entry.
- Stopping the agent; `connectAndRun` always ends with an error, as it does in the source.
- Ping and traceroute parameter bounds, ping output, custom commands and file reads.

VMware inventory and SNMP:

- The lookup of JSON fields under two spellings, entries that are no JSON objects, and the plain fields of the result.
- Hardware.NicShown: when two MAC addresses agree is a parameter, since `strings.EqualFold` is not modelled.
- The output parsers also echo their arguments into the result.
