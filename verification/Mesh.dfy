/** Dynamic peer discovery forms a full mesh: each lossless round of `RegisterWithPeers` squares the
    relation "knows", so the number of rounds is logarithmic in the number of hubs. */
module Mesh {
  import opened Text
  import opened Numbers
  import opened Auth
  import opened HubNode
  import opened Cluster

  // ---- one exchange between two hubs -----------------------------------------------------------

  ghost predicate NoLoss(es: seq<Event>) { forall e | e in es :: !e.Lose? }

  /** p has h among its peers, and everything in `list` is on its way to h. */
  ghost predicate Answering(s: State, h: Url, p: Url, list: set<Url>)
    requires h in s.hubs && p in s.hubs
  {
    && h in s.hubs[p].peers
    && (|| Answer(p, h) in s.pool
        || (exists l | PeerList(h, p, l) in s.pool :: list <= l)
        || (forall u | u in list && u != h :: u in s.hubs[h].peers || Learn(h, u) in s.pool))
  }

  /** The registration of h with p is on its way, or has been answered, or is yet to be sent by a tick. */
  ghost predicate Exchanging(s: State, es: seq<Event>, h: Url, p: Url, list: set<Url>)
    requires h in s.hubs && p in s.hubs
  {
    || Tick(h) in es
    || Register(p, h, s.hubs[h].Token(), true) in s.pool
    || Answering(s, h, p, list)
  }

  /** What is in flight stays in flight until it is delivered. */
  lemma Stays(s: State, e: Event, t: State, x: Msg)
    requires Step(s, e) == Some(t) && !e.Lose? && e != Deliver(x) && x in s.pool
    ensures x in t.pool
  {
    hide Node.Emits, Node.After, Node.OnLogin, Node.OnPost, Node.OnDelete, Node.Registrations, Node.WithLogin,
         Node.Posted;
  }

  lemma DeliverEmits(s: State, m: Msg, t: State, x: Msg)
    requires Step(s, Deliver(m)) == Some(t) && m.at in s.hubs && x in s.hubs[m.at].Emits(m)
    ensures x in t.pool && t.hubs[m.at] == s.hubs[m.at].After(m)
  {
    hide Node.Emits, Node.After;
  }

  lemma DeliverAfter(s: State, m: Msg, t: State)
    requires Step(s, Deliver(m)) == Some(t) && m.at in s.hubs
    ensures m.at in t.hubs && t.hubs[m.at] == s.hubs[m.at].After(m)
  {
    hide Node.Emits, Node.After;
  }

  lemma LearnStep(s: State, e: Event, t: State, h: Url, u: Url)
    requires Configured(s) && h in s.hubs && Step(s, e) == Some(t) && !e.Lose? && Grows(s, t)
    requires u != "" && u != h && (u in s.hubs[h].peers || Learn(h, u) in s.pool)
    ensures u in t.hubs[h].peers || Learn(h, u) in t.pool
  {
    hide Node.Emits;
    if u !in s.hubs[h].peers {
      if e == Deliver(Learn(h, u)) {
        DeliverAfter(s, Learn(h, u), t);
      } else {
        Stays(s, e, t, Learn(h, u));
      }
    }
  }

  lemma PeerListStep(s: State, e: Event, t: State, h: Url, p: Url, l: set<Url>, list: set<Url>)
    requires Configured(s) && h in s.hubs && p in s.hubs && Grows(s, t) && h in s.hubs[p].peers
    requires Step(s, e) == Some(t) && !e.Lose? && PeerList(h, p, l) in s.pool && list <= l
    ensures Answering(t, h, p, list)
  {
    hide Copies, Node.KeyMessages, Node.ScheduleMessages;
    if e == Deliver(PeerList(h, p, l)) {
      forall u | u in list && u != h ensures Learn(h, u) in t.pool {
        assert Learn(h, u) in s.hubs[h].OnPeerList(p, l);
        DeliverEmits(s, PeerList(h, p, l), t, Learn(h, u));
      }
    } else {
      Stays(s, e, t, PeerList(h, p, l));
    }
  }

  lemma {:induction false} AnsweringStep(s: State, e: Event, t: State, h: Url, p: Url, list: set<Url>)
    requires Configured(s) && h in s.hubs && p in s.hubs && h != p && "" !in list
    requires list <= s.hubs[p].peers && Step(s, e) == Some(t) && !e.Lose? && Grows(s, t)
    requires Answering(s, h, p, list)
    ensures Answering(t, h, p, list)
  {
    hide Step, Node.After;
    if Answer(p, h) in s.pool {
      if e == Deliver(Answer(p, h)) {
        DeliverEmits(s, Answer(p, h), t, PeerList(h, p, s.hubs[p].peers));
      } else {
        Stays(s, e, t, Answer(p, h));
      }
    } else if l :| PeerList(h, p, l) in s.pool && list <= l {
      PeerListStep(s, e, t, h, p, l, list);
    } else {
      forall u | u in list && u != h ensures u in t.hubs[h].peers || Learn(h, u) in t.pool {
        LearnStep(s, e, t, h, u);
      }
    }
  }

  lemma {:induction false} ExchangingStep(s: State, e: Event, t: State, es: seq<Event>, h: Url, p: Url, list: set<Url>)
    requires Configured(s) && h in s.hubs && p in s.hubs[h].peers && p in s.hubs && h != p && "" !in list
    requires list <= s.hubs[p].peers && Step(s, e) == Some(t) && !e.Lose? && Grows(s, t)
    requires Exchanging(s, [e] + es, h, p, list)
    ensures Exchanging(t, es, h, p, list)
  {
    hide Authenticate, ValidSchedule, Node.KeyMessages, Node.ScheduleMessages, Node.OnLogin, Node.OnPost, Node.OnDelete;
    var reg := Register(p, h, s.hubs[h].Token(), true);
    if Tick(h) in es {
    } else if e == Tick(h) {
      s.hubs[h].RegistrationFor(p);
    } else if Answering(s, h, p, list) {
      AnsweringStep(s, e, t, h, p, list);
    } else if e == Deliver(reg) {
      DeliverEmits(s, reg, t, Answer(p, h));
    } else {
      Stays(s, e, t, reg);
    }
  }

  lemma {:induction false} RunExchanging(s: State, es: seq<Event>, t: State, h: Url, p: Url, list: set<Url>)
    requires Configured(s) && h in s.hubs && p in s.hubs[h].peers && p in s.hubs && h != p && "" !in list
    requires list <= s.hubs[p].peers && Run(s, es) == Some(t) && NoLoss(es)
    requires Exchanging(s, es, h, p, list)
    ensures h in t.hubs && p in t.hubs && Exchanging(t, [], h, p, list)
    decreases |es|
  {
    if es != [] {
      var u := Step(s, es[0]).value;
      assert es[0] in es && es == [es[0]] + es[1..];
      StepGrows(s, es[0], u);
      ExchangingStep(s, es[0], u, es[1..], h, p, list);
      RunExchanging(u, es[1..], t, h, p, list);
    }
  }

  // ---- one round -------------------------------------------------------------------------------

  /** Every hub runs `RegisterWithPeers` at some point, nothing is lost, and at the end everything has been
      delivered. Deliveries, schedule changes and logins may interleave in any order. */
  ghost predicate RoundOf(s: State, es: seq<Event>, t: State) {
    && Run(s, es) == Some(t) && NoLoss(es) && t.pool == multiset{}
    && (forall h | h in s.hubs :: Tick(h) in es)
  }

  ghost predicate Round(s: State, t: State) { exists es :: RoundOf(s, es, t) }

  ghost predicate Knows(s: State, a: Url, b: Url) { a in s.hubs && b in s.hubs && (a == b || b in s.hubs[a].peers) }

  /** One round from relation R yields at least R, its inverse and its square. */
  lemma {:induction false} RoundSquares(s: State, t: State)
    requires Configured(s) && Closed(s) && Round(s, t)
    ensures Configured(t) && Closed(t) && t.hubs.Keys == s.hubs.Keys
    ensures forall a, b | Knows(s, a, b) :: Knows(t, a, b) && Knows(t, b, a)
    ensures forall a, b, c | Knows(s, a, b) && Knows(s, b, c) :: Knows(t, a, c)
  {
    var es :| RoundOf(s, es, t);
    RunGrows(s, es, t);
    RunKeepsClosed(s, es, t);
    forall a, b | Knows(s, a, b) ensures Knows(t, a, b) && Knows(t, b, a) {
      if a != b {
        RunExchanging(s, es, t, a, b, {});
        assert Answering(t, a, b, {});
      }
    }
    forall a, b, c | Knows(s, a, b) && Knows(s, b, c) ensures Knows(t, a, c) {
      if a != b && b != c && a != c {
        RunExchanging(s, es, t, a, b, {c});
        assert Answering(t, a, b, {c});
        assert Learn(a, c) !in t.pool;
      }
    }
  }

  lemma {:induction false} RunKeepsClosed(s: State, es: seq<Event>, t: State)
    requires Configured(s) && Closed(s) && Run(s, es) == Some(t)
    ensures Configured(t) && Closed(t)
    decreases |es|
  {
    if es != [] {
      ClosedStep(s, es[0], Step(s, es[0]).value);
      RunKeepsClosed(Step(s, es[0]).value, es[1..], t);
    }
  }

  // ---- paths -----------------------------------------------------------------------------------

  ghost predicate Path(s: State, p: seq<Url>) {
    p != [] && p[0] in s.hubs && forall i | 0 <= i < |p| - 1 :: Knows(s, p[i], p[i + 1])
  }

  /** A path that may use a link against its direction. */
  ghost predicate WeakPath(s: State, p: seq<Url>) {
    && p != [] && (forall u | u in p :: u in s.hubs)
    && forall i | 0 <= i < |p| - 1 :: Knows(s, p[i], p[i + 1]) || Knows(s, p[i + 1], p[i])
  }

  ghost predicate Joins(p: seq<Url>, a: Url, b: Url) { p != [] && p[0] == a && p[|p| - 1] == b }

  /** The seed graph is weakly connected. */
  ghost predicate Connected(s: State) {
    forall a, b | a in s.hubs && b in s.hubs :: exists p :: WeakPath(s, p) && Joins(p, a, b)
  }

  ghost predicate FullMesh(s: State) {
    forall a, b | a in s.hubs && b in s.hubs :: Knows(s, a, b)
  }

  lemma StillFull(s: State, t: State)
    requires Configured(s) && FullMesh(s) && Grows(s, t)
    ensures Configured(t) && FullMesh(t)
  {
    forall a, b | a in t.hubs && b in t.hubs ensures Knows(t, a, b) {
      assert Knows(s, a, b);
    }
  }

  ghost predicate NoRepeats(p: seq<Url>) { forall i, j | 0 <= i < j < |p| :: p[i] != p[j] }

  lemma {:induction false} SimplePath(s: State, p: seq<Url>, a: Url, b: Url) returns (q: seq<Url>)
    requires WeakPath(s, p) && Joins(p, a, b)
    ensures WeakPath(s, q) && Joins(q, a, b) && NoRepeats(q)
    decreases |p|
  {
    if i, j :| 0 <= i < j < |p| && p[i] == p[j] {
      var r := p[..i] + p[j..];
      forall k | 0 <= k < |r| - 1 ensures Knows(s, r[k], r[k + 1]) || Knows(s, r[k + 1], r[k]) {
        var k' := if k < i then k else k + j - i;
        assert r[k] == p[k'] && r[k + 1] == p[k' + 1];
      }
      q := SimplePath(s, r, a, b);
    } else {
      q := p;
    }
  }

  lemma {:induction false} NoRepeatsBound(p: seq<Url>, all: set<Url>)
    requires NoRepeats(p) && forall u | u in p :: u in all
    ensures |p| <= |all|
  {
    if p != [] {
      NoRepeatsBound(p[1..], all - {p[0]});
    }
  }

  /** Every second hub of the path. */
  lemma HalvePath(s: State, t: State, p: seq<Url>, m: nat) returns (q: seq<Url>)
    requires Configured(s) && Closed(s) && Round(s, t) && Path(s, p) && |p| - 1 <= 2 * m
    ensures Path(t, q) && |q| - 1 <= m && Joins(q, p[0], p[|p| - 1])
  {
    RoundSquares(s, t);
    var n := |p| - 1;
    q := seq((n + 1) / 2 + 1, i requires 0 <= i <= (n + 1) / 2 => p[if 2 * i <= n then 2 * i else n]);
    forall i | 0 <= i < |q| - 1 ensures Knows(t, q[i], q[i + 1]) {
      assert Knows(s, p[2 * i], p[2 * i + 1]);
      if 2 * i + 2 <= n {
        assert Knows(s, p[2 * i + 1], p[2 * i + 2]);
      }
    }
  }

  /** The logarithm to base 2, rounded up. */
  function Log2Up(n: nat): nat { if n <= 1 then 0 else 1 + Log2Up((n + 1) / 2) }

  lemma {:induction false} Log2UpIsLeast(n: nat)
    ensures n <= Pow2(Log2Up(n))
    ensures forall k: nat | k < Log2Up(n) :: Pow2(k) < n
  {
    if n > 1 {
      Log2UpIsLeast((n + 1) / 2);
      forall k: nat | k < Log2Up(n) ensures Pow2(k) < n {
        if k > 0 {
          assert Pow2(k - 1) < (n + 1) / 2;
        }
      }
    }
  }

  // ---- convergence -----------------------------------------------------------------------------

  ghost predicate Rounds(states: seq<State>) {
    states != [] && forall i | 0 <= i < |states| - 1 :: Round(states[i], states[i + 1])
  }

  lemma RoundsTail(states: seq<State>)
    requires Rounds(states) && |states| > 1
    ensures Rounds(states[1..])
  {
    forall i | 0 <= i < |states[1..]| - 1 ensures Round(states[1..][i], states[1..][i + 1]) {
      assert Round(states[i + 1], states[i + 1 + 1]);
    }
  }

  lemma FirstOfRounds(states: seq<State>)
    requires Rounds(states) && |states| > 1
    ensures Round(states[0], states[1])
  {
    assert Round(states[0], states[0 + 1]);
  }

  lemma ShortPath(s: State, p: seq<Url>)
    requires Path(s, p) && |p| <= 2
    ensures Knows(s, p[0], p[|p| - 1])
  {
    assert |p| == 2 ==> Knows(s, p[0], p[0 + 1]);
  }

  lemma {:induction false} RoundsShrink(states: seq<State>, p: seq<Url>, k: nat)
    requires Rounds(states) && |states| == k + 1 && Configured(states[0]) && Closed(states[0])
    requires Path(states[0], p) && |p| - 1 <= Pow2(k)
    ensures Knows(states[k], p[0], p[|p| - 1])
  {
    hide Rounds, Round, Configured, Closed, Knows;
    if k == 0 {
      ShortPath(states[0], p);
    } else {
      FirstOfRounds(states);
      RoundSquares(states[0], states[1]);
      var q := HalvePath(states[0], states[1], p, Pow2(k - 1));
      RoundsTail(states);
      RoundsShrink(states[1..], q, k - 1);
    }
  }

  /** One round turns weak links into links both ways. */
  lemma FirstRound(s: State, t: State, p: seq<Url>)
    requires Configured(s) && Closed(s) && Round(s, t) && WeakPath(s, p)
    ensures Path(t, p)
  {
    RoundSquares(s, t);
    assert p[0] in p;
    forall i | 0 <= i < |p| - 1 ensures Knows(t, p[i], p[i + 1]) {
      assert Knows(s, p[i], p[i + 1]) || Knows(s, p[i + 1], p[i]);
    }
  }

  lemma JoinedHubsMeet(states: seq<State>, q: seq<Url>)
    requires Rounds(states) && |states| > 1 && Configured(states[0]) && Closed(states[0])
    requires WeakPath(states[0], q) && |q| - 1 <= Pow2(|states| - 2)
    ensures Knows(states[|states| - 1], q[0], q[|q| - 1])
  {
    hide Configured, Closed, Round, Knows;
    assert Round(states[0], states[0 + 1]);
    RoundSquares(states[0], states[1]);
    FirstRound(states[0], states[1], q);
    RoundsTail(states);
    RoundsShrink(states[1..], q, |states| - 2);
  }

  lemma {:induction false} PairMeets(states: seq<State>, a: Url, b: Url)
    requires Rounds(states) && Configured(states[0]) && Closed(states[0]) && Connected(states[0])
    requires |states| > 1 && |states[0].hubs| - 1 <= Pow2(|states| - 2)
    requires a in states[0].hubs && b in states[0].hubs
    ensures Knows(states[|states| - 1], a, b)
  {
    hide Configured, Closed, Round, Knows, Rounds, WeakPath, Pow2;
    var s := states[0];
    var p :| WeakPath(s, p) && Joins(p, a, b);
    var q := SimplePath(s, p, a, b);
    WeakPathHubs(s, q);
    NoRepeatsBound(q, s.hubs.Keys);
    assert |s.hubs.Keys| == |s.hubs|;
    JoinedHubsMeet(states, q);
  }

  /** Mesh convergence: hubs with distinct non-empty URLs and a common non-empty token, whose seeds are URLs of
      the cluster and connect it weakly, all know each other after 1 + log2(n - 1) lossless rounds. */
  lemma {:induction false} MeshConvergence(states: seq<State>)
    requires Rounds(states) && Configured(states[0]) && Closed(states[0]) && Connected(states[0])
    requires |states[0].hubs| >= 1 && |states| == 2 + Log2Up(|states[0].hubs| - 1)
    ensures FullMesh(states[|states| - 1])
  {
    hide Configured, Closed, Round, Knows, Rounds, Connected;
    Log2UpIsLeast(|states[0].hubs| - 1);
    RoundsKeepHubs(states, |states| - 1);
    forall a, b | a in states[0].hubs && b in states[0].hubs ensures Knows(states[|states| - 1], a, b) {
      PairMeets(states, a, b);
    }
  }

  lemma WeakPathHubs(s: State, q: seq<Url>)
    requires WeakPath(s, q)
    ensures forall u | u in q :: u in s.hubs.Keys
  {}

  lemma {:induction false} RoundsKeepHubs(states: seq<State>, i: nat)
    requires Rounds(states) && Configured(states[0]) && Closed(states[0]) && i < |states|
    ensures states[i].hubs.Keys == states[0].hubs.Keys && Configured(states[i]) && Closed(states[i])
  {
    if i > 0 {
      RoundsKeepHubs(states, i - 1);
      assert Round(states[i - 1], states[i - 1 + 1]);
      RoundSquares(states[i - 1], states[i]);
    }
  }

  /** A round that adds nothing has nothing left to add: on each component the mesh is complete. */
  lemma {:induction false} QuietRoundIsComplete(s: State, t: State, p: seq<Url>)
    requires Configured(s) && Closed(s) && Round(s, t)
    requires forall a, b | Knows(t, a, b) :: Knows(s, a, b)
    requires WeakPath(s, p)
    ensures Knows(s, p[0], p[|p| - 1]) && Knows(s, p[|p| - 1], p[0])
  {
    RoundSquares(s, t);
    FirstRound(s, t, p);
    QuietPath(s, t, p);
  }

  lemma {:induction false} QuietPath(s: State, t: State, p: seq<Url>)
    requires Configured(s) && Closed(s) && Round(s, t)
    requires forall a, b | Knows(t, a, b) :: Knows(s, a, b)
    requires Path(t, p)
    ensures Knows(s, p[0], p[|p| - 1]) && Knows(s, p[|p| - 1], p[0])
  {
    RoundSquares(s, t);
    if |p| > 1 {
      assert Knows(t, p[0], p[0 + 1]);
      forall i | 0 <= i < |p[1..]| - 1 ensures Knows(t, p[1..][i], p[1..][i + 1]) {
        assert Knows(t, p[i + 1], p[i + 1 + 1]);
      }
      QuietPath(s, t, p[1..]);
      assert Knows(t, p[0], p[|p| - 1]) && Knows(t, p[|p| - 1], p[0]);
    }
  }
}
