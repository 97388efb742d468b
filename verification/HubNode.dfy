/** One hub of a cluster (hub/server.go, and the handlers of cmd/hub/main.go that call into it): peers,
    schedules and authorized keys, and the messages that its goroutines send. `Node` gives the meaning of
    each operation; class `Hub` has the loops of the source. */
module HubNode {
  import opened Text
  import opened KeyFile
  import opened Auth

  type Url = string

  datatype Schedule = Schedule(
    id: string, agentID: string, job: string, params: string, kind: string, interval: int, runAt: int)

  /** The checks of POST /schedules. */
  predicate ValidSchedule(s: Schedule) {
    && s.id != "" && s.agentID != "" && s.job != ""
    && s.kind in {"once", "interval", "at"}
    && (s.kind == "interval" ==> s.interval > 0)
    && (s.kind == "at" ==> s.runAt > 0)
  }

  /** A request on its way from one hub to another, the reply to a registration, or a goroutine that has been
      started on a hub and has not yet got further (`Answer`, `SyncAll`, `SyncSchedules`, `Learn`). */
  datatype Msg =
    | Register(at: Url, url: Url, token: string, wantsList: bool)
    | Answer(at: Url, asker: Url)
    | PeerList(at: Url, peer: Url, list: set<Url>)
    | Learn(at: Url, url: Url)
    | SyncAll(at: Url, peer: Url)
    | SyncSchedules(at: Url, peer: Url)
    | PutKey(at: Url, id: string, text: string, token: string)
    | PutSchedule(at: Url, sched: Schedule, token: string)
    | DropSchedule(at: Url, id: string, token: string)

  predicate OnTheWire(m: Msg) { !m.Answer? && !m.Learn? && !m.SyncAll? && !m.SyncSchedules? }

  /** The same message, for another hub. */
  function To(m: Msg, p: Url): (r: Msg)
    ensures r.at == p
  {
    m.(at := p)
  }

  /** One copy of a message to every peer in the set. */
  ghost function Copies(peers: set<Url>, m: Msg): multiset<Msg> {
    multiset(set p | p in peers :: To(m, p))
  }

  lemma CopyFor(peers: set<Url>, m: Msg, p: Url)
    requires p in peers
    ensures To(m, p) in Copies(peers, m)
  {}

  lemma AddToSet(ms: set<Msg>, m: Msg)
    requires m !in ms
    ensures multiset(ms + {m}) == multiset(ms) + multiset{m}
  {}

  /** One more peer; the hub itself gets no copy. */
  lemma CopiesStep(seen: set<Url>, p: Url, self: Url, m: Msg)
    requires p !in seen
    ensures Copies(seen + {p} - {self}, m) ==
            Copies(seen - {self}, m) + if p == self then multiset{} else multiset{To(m, p)}
  {
    hide To;
    var before := seen - {self};
    if p == self {
      assert seen + {p} - {self} == before;
    } else {
      var copies := set q | q in before :: To(m, q);
      assert seen + {p} - {self} == before + {p};
      assert (set q | q in before + {p} :: To(m, q)) == copies + {To(m, p)};
      AddToSet(copies, To(m, p));
    }
  }

  datatype Node = Node(
    url: Url, config: Config, peers: set<Url>, schedules: map<string, Schedule>, keys: map<string, Stored>) {

    function Token(): string { config.authToken }

    /** Schedules are stored under their own ids. */
    ghost predicate Valid() { forall id | id in schedules :: schedules[id].id == id }

    // ---- peers ---------------------------------------------------------------------------------

    predicate Ignores(u: Url) { u == "" || u == url }

    function WithPeer(u: Url): Node { if Ignores(u) then this else this.(peers := peers + {u}) }

    /** AddPeer: state is pushed to the peer every time, the announcement goes out the first time only. */
    ghost function OnAddPeer(u: Url): multiset<Msg> {
      if Ignores(u) then multiset{}
      else
        multiset{SyncAll(url, u)} +
        (if u !in peers && url != "" then multiset{Register(u, url, Token(), false)} else multiset{})
    }

    /** RegisterWithPeers */
    ghost function Registrations(): multiset<Msg> {
      if url == "" then multiset{} else Copies(peers - {url}, Register(url, url, Token(), true))
    }

    lemma RegistrationFor(p: Url)
      requires url != "" && p in peers && p != url
      ensures Register(p, url, Token(), true) in Registrations()
    {
      CopyFor(peers - {url}, Register(url, url, Token(), true), p);
    }

    /** POST /internal/register-peer: accepted or refused. */
    predicate Admits(u: Url, token: string) { u != "" && token != "" && token == Token() }

    /** The branch of `RegisterWithPeers` that has received a list of peers. */
    ghost function OnPeerList(peer: Url, list: set<Url>): multiset<Msg> {
      multiset{SyncAll(url, peer)} + multiset(set u | u in list - {url} :: Learn(url, u))
    }

    // ---- keys ----------------------------------------------------------------------------------

    predicate Loadable(id: string) { config.keysDir && id in keys && keys[id].Holds? }

    function KeyMessage(peer: Url, id: string): Msg
      requires Loadable(id)
    {
      PutKey(peer, id, Encode(STD, keys[id].key), Token())
    }

    /** A copy of every key among `ids` that loads from its file. */
    ghost function KeyMessages(ids: set<string>, peer: Url): multiset<Msg> {
      multiset(set id | id in ids && Loadable(id) :: KeyMessage(peer, id))
    }

    /** POST /internal/sync-key and SavePeerPublicKey */
    function WithKeyText(id: string, text: string, token: string): Node {
      if id == "" || text == "" || token == "" || token != Token() || !config.keysDir then this
      else match Decode(STD, text) {
        case None => this
        case Some(key) => this.(keys := keys[id := Saved(key)])
      }
    }

    /** ServeHTTP: the verdict, the key it stores, the copies it sends to the peers. */
    function Judge(r: Request, now: int, verify: Verifier): Verdict {
      Authenticate(config, if r.agentID in keys then Some(keys[r.agentID]) else None, r, now, verify)
    }

    /** Who may open a connection: one of the three ways in is open to the agent. */
    ghost predicate Admitted(r: Request, now: int, verify: Verifier) {
      var file := if r.agentID in keys then Some(keys[r.agentID]) else None;
      && r.agentID != "" && (forall ch | ch in r.agentID :: IDCharacter(ch))
      && (|| MayUseToken(config, file, r)
          || (exists key :: SignsWith(config, file, r, now, verify, key))
          || (exists key :: MayRegister(config, file, r, now, verify, key)))
    }

    lemma AdmittedExactly(r: Request, now: int, verify: Verifier)
      ensures Judge(r, now, verify).Accepted() <==> Admitted(r, now, verify)
    {
      hide Authenticate, MayUseToken, SignsWith, MayRegister, IDCharacter;
      AcceptedExactly(config, if r.agentID in keys then Some(keys[r.agentID]) else None, r, now, verify);
      var v := Judge(r, now, verify);
      match v
      case BySignature(key) =>
      case ByRegistration(key) =>
      case ByToken =>
      case Rejected(_) =>
    }

    /** A request whose token is not the hub's changes nothing and sets nothing off. */
    lemma WrongTokenIgnored(m: Msg)
      requires (m.Register? || m.PutKey? || m.PutSchedule? || m.DropSchedule?) && m.token != Token()
      ensures After(m) == this && Emits(m) == multiset{}
    {}

    /** A registration with the right one does what AddPeer does, and is answered if an answer is wanted. */
    lemma RightTokenAdmitted(m: Msg)
      requires m.Register? && m.token == Token() != "" && m.url != ""
      ensures After(m).peers == peers + (if m.url == url then {} else {m.url})
      ensures Emits(m) == OnAddPeer(m.url) + if m.wantsList then multiset{Answer(url, m.url)} else multiset{}
    {}

    function WithLogin(r: Request, now: int, verify: Verifier): Node {
      match Judge(r, now, verify)
      case ByRegistration(key) => this.(keys := keys[r.agentID := Holds(key)])
      case _ => this
    }

    ghost function OnLogin(r: Request, now: int, verify: Verifier): multiset<Msg> {
      match Judge(r, now, verify)
      case ByRegistration(key) => Copies(peers - {url}, PutKey(url, r.agentID, r.publicKey, Token()))
      case _ => multiset{}
    }

    // ---- schedules -----------------------------------------------------------------------------

    function ScheduleMessage(peer: Url, id: string): Msg
      requires id in schedules
    {
      PutSchedule(peer, schedules[id], Token())
    }

    ghost function ScheduleMessages(ids: set<string>, peer: Url): multiset<Msg> {
      multiset(set id | id in ids && id in schedules :: ScheduleMessage(peer, id))
    }

    function WithSchedule(s: Schedule): Node { this.(schedules := schedules[s.id := s]) }

    function WithoutSchedule(id: string): Node { this.(schedules := schedules - {id}) }

    /** POST /schedules */
    function Posted(s: Schedule): Node { if ValidSchedule(s) then WithSchedule(s) else this }

    ghost function OnPost(s: Schedule): multiset<Msg> {
      if ValidSchedule(s) then Copies(peers - {url}, PutSchedule(url, s, Token())) else multiset{}
    }

    ghost function OnDelete(id: string): multiset<Msg> {
      if id in schedules then Copies(peers - {url}, DropSchedule(url, id, Token())) else multiset{}
    }

    lemma NoScheduleMessages(peer: Url)
      ensures ScheduleMessages({}, peer) == multiset{}
    {}

    lemma ScheduleMessagesAdd(ids: set<string>, id: string, peer: Url)
      requires Valid() && id !in ids && id in schedules
      ensures ScheduleMessages(ids + {id}, peer) == ScheduleMessages(ids, peer) + multiset{ScheduleMessage(peer, id)}
    {
      var before := set i | i in ids && i in schedules :: ScheduleMessage(peer, i);
      assert (set i | i in ids + {id} && i in schedules :: ScheduleMessage(peer, i))
          == before + {ScheduleMessage(peer, id)};
      AddToSet(before, ScheduleMessage(peer, id));
    }

    lemma KeyMessagesAdd(ids: set<string>, id: string, peer: Url)
      requires id !in ids
      ensures KeyMessages(ids + {id}, peer) ==
              KeyMessages(ids, peer) + if Loadable(id) then multiset{KeyMessage(peer, id)} else multiset{}
    {
      var before := set i | i in ids && Loadable(i) :: KeyMessage(peer, i);
      var after := set i | i in ids + {id} && Loadable(i) :: KeyMessage(peer, i);
      if Loadable(id) {
        assert after == before + {KeyMessage(peer, id)};
        AddToSet(before, KeyMessage(peer, id));
      } else {
        assert after == before;
      }
    }

    // ---- receiving -----------------------------------------------------------------------------

    /** The state after a message has been handled or a goroutine has run. */
    function After(m: Msg): Node {
      match m
      case Register(_, u, token, _) => if Admits(u, token) then WithPeer(u) else this
      case Learn(_, u) => WithPeer(u)
      case PutKey(_, id, text, token) => WithKeyText(id, text, token)
      case PutSchedule(_, s, token) => if token == Token() then WithSchedule(s) else this
      case DropSchedule(_, id, token) => if id != "" && token == Token() then WithoutSchedule(id) else this
      case _ => this
    }

    /** What is sent or started meanwhile. */
    ghost function Emits(m: Msg): multiset<Msg> {
      match m
      case Register(_, u, token, wantsList) =>
        if !Admits(u, token) then multiset{}
        else OnAddPeer(u) + (if wantsList then multiset{Answer(url, u)} else multiset{})
      case Answer(_, asker) => multiset{PeerList(asker, url, peers)}
      case PeerList(_, peer, list) => OnPeerList(peer, list)
      case Learn(_, u) => OnAddPeer(u)
      case SyncAll(_, peer) =>
        if Ignores(peer) then multiset{} else KeyMessages(keys.Keys, peer) + multiset{SyncSchedules(url, peer)}
      case SyncSchedules(_, peer) => ScheduleMessages(schedules.Keys, peer)
      case _ => multiset{}
    }

    /** What a message says about the one that set it off. */
    ghost predicate Explains(m: Msg, x: Msg) {
      match x
      case Register(at, u, token, wantsList) =>
        (m.Register? || m.Learn?) && at == m.url && u == url && token == Token() && !wantsList
      case Answer(at, asker) => m.Register? && at == url && asker == m.url
      case PeerList(at, peer, list) => m.Answer? && at == m.asker && peer == url && list == peers
      case Learn(at, u) => m.PeerList? && at == url && u in m.list
      case SyncAll(at, peer) =>
        at == url && (if m.PeerList? then peer == m.peer else (m.Register? || m.Learn?) && peer == m.url)
      case SyncSchedules(at, peer) => m.SyncAll? && at == url && peer == m.peer
      case PutKey(at, id, _, _) => m.SyncAll? && at == m.peer && Loadable(id) && x == KeyMessage(at, id)
      case PutSchedule(at, sched, token) =>
        m.SyncSchedules? && at == m.peer && token == Token() && exists id :: id in schedules && schedules[id] == sched
      case DropSchedule(_, _, _) => false
    }

    lemma AddPeerExplained(m: Msg, u: Url, x: Msg)
      requires x in OnAddPeer(u) && (m.Register? || m.Learn?) && m.url == u
      ensures Explains(m, x)
    {}

    lemma KeyExplained(m: Msg, peer: Url, x: Msg)
      requires x in KeyMessages(keys.Keys, peer) && m.SyncAll? && m.peer == peer
      ensures Explains(m, x)
    {
      hide Encode;
      var id :| id in keys.Keys && Loadable(id) && x == KeyMessage(peer, id);
    }

    lemma ScheduleExplained(m: Msg, peer: Url, x: Msg)
      requires x in ScheduleMessages(schedules.Keys, peer) && m.SyncSchedules? && m.peer == peer
      ensures Explains(m, x)
    {
      hide Encode;
      var id :| id in schedules.Keys && x == ScheduleMessage(peer, id);
    }

    lemma {:induction false} Explained(m: Msg, x: Msg)
      requires x in Emits(m)
      ensures Explains(m, x)
    {
      hide OnAddPeer, KeyMessages, ScheduleMessages, KeyMessage, Admits, Ignores, Loadable;
      match m
      case Register(_, u, _, _) => if x in OnAddPeer(u) { AddPeerExplained(m, u, x); }
      case Learn(_, u) => AddPeerExplained(m, u, x);
      case SyncAll(_, peer) => if x in KeyMessages(keys.Keys, peer) { KeyExplained(m, peer, x); }
      case SyncSchedules(_, peer) => ScheduleExplained(m, peer, x);
      case Answer(_, _) =>
      case PeerList(_, _, _) =>
      case _ =>
    }

    /** The state after these peers have been learnt one after the other, and what was sent meanwhile. */
    function Learnt(us: seq<Url>): (n: Node)
      ensures n.url == url && n.config == config
    {
      if us == [] then this else Learnt(us[..|us| - 1]).After(Learn(url, us[|us| - 1]))
    }

    ghost function LearnEmits(us: seq<Url>): multiset<Msg> {
      if us == [] then multiset{}
      else
        var front := us[..|us| - 1];
        LearnEmits(front) + Learnt(front).Emits(Learn(url, us[|us| - 1]))
    }

    lemma LearnNext(us: seq<Url>, i: nat)
      requires i < |us|
      ensures Learnt(us[..i + 1]) == Learnt(us[..i]).WithPeer(us[i])
      ensures LearnEmits(us[..i + 1]) == LearnEmits(us[..i]) + Learnt(us[..i]).OnAddPeer(us[i])
    {
      assert us[..i + 1][..i] == us[..i];
    }

    lemma IgnoresItself()
      ensures WithPeer(url) == this && OnAddPeer(url) == multiset{}
    {}
  }

  class Hub {
    const myURL: Url
    const config: Config
    var peers: set<Url>
    var schedules: map<string, Schedule>
    var keys: map<string, Stored>
    var outbox: multiset<Msg>

    function View(): Node
      reads this
    {
      Node(myURL, config, peers, schedules, keys)
    }

    /** NewHub: empty seeds are dropped. */
    constructor (myURL: Url, config: Config, seedPeers: seq<Url>, keys: map<string, Stored>)
      ensures View() == Node(myURL, config, set p | p in seedPeers && p != "", map[], keys) && outbox == multiset{}
    {
      this.myURL := myURL;
      this.config := config;
      this.schedules := map[];
      this.keys := keys;
      this.outbox := multiset{};
      var known: set<Url> := {};
      for i := 0 to |seedPeers|
        invariant known == set p | p in seedPeers[..i] && p != ""
      {
        if seedPeers[i] != "" {
          known := known + {seedPeers[i]};
        }
      }
      assert seedPeers[..|seedPeers|] == seedPeers;
      this.peers := known;
    }

    method AddPeer(peerURL: Url)
      modifies this
      ensures View() == old(View()).WithPeer(peerURL)
      ensures outbox == old(outbox) + old(View()).OnAddPeer(peerURL)
    {
      if peerURL == "" || peerURL == myURL {
        return;
      }
      var known := peerURL in peers;
      peers := peers + {peerURL};
      outbox := outbox + multiset{SyncAll(myURL, peerURL)};
      if !known && myURL != "" {
        outbox := outbox + multiset{Register(peerURL, myURL, config.authToken, false)};
      }
    }

    /** The handler of /internal/register-peer; None is a refusal. */
    method HandleRegistration(url: Url, token: string) returns (list: Option<set<Url>>)
      modifies this
      ensures list.Some? <==> url != "" && token == config.authToken != ""
      ensures list.Some? ==> list.value == peers == old(peers) + (if url == myURL then {} else {url})
      ensures list.None? ==> View() == old(View()) && outbox == old(outbox)
      ensures View() == old(View()).After(Register(myURL, url, token, false))
      ensures outbox == old(outbox) + old(View()).Emits(Register(myURL, url, token, false))
    {
      if url == "" || token == "" {
        return None;
      }
      if token != config.authToken {
        return None;
      }
      AddPeer(url);
      list := Some(peers);
    }

    method RegisterWithPeers()
      modifies this`outbox
      ensures outbox == old(outbox) + View().Registrations()
    {
      if myURL != "" {
        Broadcast(Register(myURL, myURL, config.authToken, true));
      }
    }

    /** The rest of RegisterWithPeers for one peer, when its reply has come: a full sync to it, and AddPeer for every
        URL on its list, if the list can be read. */
    method HandlePeerList(peerURL: Url, status: nat, peerList: Option<seq<Url>>)
      modifies this
      ensures var list := if status == 200 && peerList.Some? then peerList.value else [];
              && View() == old(View()).Learnt(list)
              && outbox == old(outbox) + (if status == 200 then multiset{SyncAll(myURL, peerURL)} else multiset{})
                           + old(View()).LearnEmits(list)
    {
      if status != 200 {
        return;
      }
      outbox := outbox + multiset{SyncAll(myURL, peerURL)};
      if peerList.None? {
        return;
      }
      LearnPeers(peerList.value);
    }

    method LearnPeers(list: seq<Url>)
      modifies this
      ensures View() == old(View()).Learnt(list)
      ensures outbox == old(outbox) + old(View()).LearnEmits(list)
    {
      ghost var start := View();
      ghost var sent := multiset{};
      for i := 0 to |list|
        invariant View() == start.Learnt(list[..i]) && sent == start.LearnEmits(list[..i])
        invariant outbox == old(outbox) + sent
      {
        hide Node.Learnt, Node.LearnEmits, Node.WithPeer, Node.OnAddPeer;
        start.LearnNext(list, i);
        View().IgnoresItself();
        sent := sent + View().OnAddPeer(list[i]);
        if list[i] != myURL {
          AddPeer(list[i]);
        }
      }
      assert list[..|list|] == list;
    }

    /** The loop of RegisterWithPeers and of the broadcasts of keys, schedules and deletions: one copy to every
        peer but the hub itself. */
    method Broadcast(m: Msg)
      modifies this`outbox
      ensures outbox == old(outbox) + Copies(peers - {myURL}, m)
    {
      var todo := peers;
      ghost var sent := multiset{};
      assert Copies(peers - todo - {myURL}, m) == multiset{};
      while todo != {}
        invariant todo <= peers
        invariant sent == Copies(peers - todo - {myURL}, m)
        invariant outbox == old(outbox) + sent
        decreases todo
      {
        hide Copies;
        var p :| p in todo;
        CopiesStep(peers - todo, p, myURL, m);
        assert peers - (todo - {p}) == peers - todo + {p};
        todo := todo - {p};
        if p != myURL {
          outbox := outbox + multiset{To(m, p)};
          sent := sent + multiset{To(m, p)};
        }
      }
    }

    /** POST /schedules, with AddSchedule and BroadcastScheduleSync. */
    method PostSchedule(s: Schedule) returns (created: bool)
      modifies this
      ensures created <==>
                && s.id != "" && s.agentID != "" && s.job != ""
                && (s.kind == "once" || (s.kind == "interval" && s.interval > 0) || (s.kind == "at" && s.runAt > 0))
      ensures schedules == if created then old(schedules)[s.id := s] else old(schedules)
      ensures View() == old(View()).Posted(s)
      ensures outbox == old(outbox) + old(View()).OnPost(s)
    {
      if s.id == "" || s.agentID == "" || s.job == "" || s.kind == "" {
        return false;
      }
      if s.kind != "once" && s.kind != "interval" && s.kind != "at" {
        return false;
      }
      if s.kind == "interval" && s.interval <= 0 {
        return false;
      }
      if s.kind == "at" && s.runAt <= 0 {
        return false;
      }
      schedules := schedules[s.id := s];
      Broadcast(PutSchedule(myURL, s, config.authToken));
      created := true;
    }

    method DeleteSchedule(id: string)
      modifies this
      ensures View() == old(View()).WithoutSchedule(id)
      ensures outbox == old(outbox) + old(View()).OnDelete(id)
    {
      if id in schedules {
        schedules := schedules - {id};
        Broadcast(DropSchedule(myURL, id, config.authToken));
      } else {
        assert schedules - {id} == schedules;
      }
    }

    /** SyncAllToPeer: a copy of every loadable key, then a copy of every schedule. */
    method SyncAllToPeer(peerURL: Url)
      requires View().Valid()
      modifies this`outbox
      ensures outbox == old(outbox) + if View().Ignores(peerURL) then multiset{}
                                      else View().KeyMessages(keys.Keys, peerURL)
                                           + View().ScheduleMessages(schedules.Keys, peerURL)
    {
      if peerURL == "" || peerURL == myURL {
        return;
      }
      SyncKeys(peerURL);
      SyncSchedulesTo(peerURL);
    }

    method SyncSchedulesTo(peerURL: Url)
      requires View().Valid()
      modifies this`outbox
      ensures outbox == old(outbox) + View().ScheduleMessages(schedules.Keys, peerURL)
    {
      hide Node.ScheduleMessages, Node.Valid;
      var todo := schedules.Keys;
      ghost var n, sent := View(), multiset{};
      n.NoScheduleMessages(peerURL);
      assert schedules.Keys - todo == {};
      while todo != {}
        invariant todo <= schedules.Keys
        invariant sent == n.ScheduleMessages(schedules.Keys - todo, peerURL)
        invariant outbox == old(outbox) + sent
        decreases todo
      {
        var id :| id in todo;
        n.ScheduleMessagesAdd(schedules.Keys - todo, id, peerURL);
        assert schedules.Keys - (todo - {id}) == schedules.Keys - todo + {id};
        todo := todo - {id};
        var m := PutSchedule(peerURL, schedules[id], config.authToken);
        outbox := outbox + multiset{m};
        sent := sent + multiset{m};
      }
      assert schedules.Keys - {} == schedules.Keys;
    }

    method SyncKeys(peerURL: Url)
      modifies this`outbox
      ensures outbox == old(outbox) + View().KeyMessages(keys.Keys, peerURL)
    {
      if !config.keysDir {
        return;
      }
      var todo := keys.Keys;
      ghost var sent := multiset{};
      assert View().KeyMessages(keys.Keys - todo, peerURL) == multiset{};
      while todo != {}
        invariant todo <= keys.Keys
        invariant sent == View().KeyMessages(keys.Keys - todo, peerURL)
        invariant outbox == old(outbox) + sent
        decreases todo
      {
        hide Node.KeyMessages;
        var id :| id in todo;
        View().KeyMessagesAdd(keys.Keys - todo, id, peerURL);
        assert keys.Keys - (todo - {id}) == keys.Keys - todo + {id};
        todo := todo - {id};
        if keys[id].Holds? {
          outbox := outbox + multiset{PutKey(peerURL, id, Encode(STD, keys[id].key), config.authToken)};
          sent := sent + multiset{View().KeyMessage(peerURL, id)};
        }
      }
      assert keys.Keys - {} == keys.Keys;
    }

    /** The handlers of /internal/sync-schedule and /internal/sync-key. */
    method HandleSync(m: Msg)
      requires m.PutSchedule? || m.DropSchedule? || m.PutKey?
      modifies this
      ensures View() == old(View()).After(m) && outbox == old(outbox)
      ensures m.token != config.authToken ==> View() == old(View())
      ensures m.PutSchedule? && m.token == config.authToken ==> schedules == old(schedules)[m.sched.id := m.sched]
      ensures m.DropSchedule? && m.token == config.authToken && m.id != "" ==> schedules == old(schedules) - {m.id}
      // a key that can be read is stored, but is of use only if it has 32 bytes
      ensures m.PutKey? ==>
                var key := Decode(STD, m.text);
                var taken := m.id != "" && m.text != "" && m.token == config.authToken != "" && config.keysDir;
                keys == if taken && key.Some?
                        then old(keys)[m.id := if |key.value| == 32 then Holds(key.value) else Broken] else old(keys)
    {
      match m
      case PutSchedule(_, s, token) =>
        if token == config.authToken {
          schedules := schedules[s.id := s];
        }
      case DropSchedule(_, id, token) =>
        if id != "" && token == config.authToken {
          schedules := schedules - {id};
        }
      case PutKey(_, id, text, token) =>
        if id == "" || text == "" || token == "" || token != config.authToken {
          return;
        }
        var key := Decode(STD, text);
        if key.Some? && config.keysDir {
          keys := keys[id := Saved(key.value)];
        }
    }

    /** The part of ServeHTTP before the connection is upgraded. */
    method ServeHTTP(r: Request, now: int, verify: Verifier) returns (v: Verdict)
      modifies this
      ensures v == old(View()).Judge(r, now, verify)
      ensures v.Accepted() <==> old(View()).Admitted(r, now, verify)
      ensures keys == if v.ByRegistration? then old(keys)[r.agentID := Holds(v.key)] else old(keys)
      ensures View() == old(View()).WithLogin(r, now, verify)
      ensures outbox == old(outbox) + old(View()).OnLogin(r, now, verify)
    {
      var file := if r.agentID in keys then Some(keys[r.agentID]) else None;
      v := Authenticate(config, file, r, now, verify);
      View().AdmittedExactly(r, now, verify);
      if v.ByRegistration? {
        keys := keys[r.agentID := Holds(v.key)];
        Broadcast(PutKey(myURL, r.agentID, r.publicKey, config.authToken));
      }
    }
  }
}
