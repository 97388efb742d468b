/** The reconnection loop of the agent (agent/client.go, `NewAgent`, `Start` and the handler of
    `update_failover_urls`). Time is counted in seconds. */
module Failover {
  import opened Text
  import opened Numbers

  const MAX_BACKOFF: nat := 30

  const DEFAULT_URL := "ws://localhost:8080/ws"

  // ---- the list of hubs ------------------------------------------------------------------

  /** The parts of a comma-separated list that are not blank, trimmed. */
  function NonBlank(parts: seq<string>): seq<string> {
    if parts == [] then []
    else (if Trim(parts[0]) == "" then [] else [Trim(parts[0])]) + NonBlank(parts[1..])
  }

  function HubURLs(hubURL: string): (urls: seq<string>)
    ensures urls != []
  {
    var urls := NonBlank(Split(hubURL, ','));
    if urls == [] then [DEFAULT_URL] else urls
  }

  lemma {:induction false} NonBlankInOrder(a: seq<string>, b: seq<string>)
    ensures NonBlank(a + b) == NonBlank(a) + NonBlank(b)
  {
    hide Trim;
    if a == [] {
      assert a + b == b;
    } else {
      assert (a + b)[0] == a[0] && (a + b)[1..] == a[1..] + b;
      NonBlankInOrder(a[1..], b);
    }
  }

  lemma NonBlankOne(part: string)
    ensures NonBlank([part]) == if Trim(part) == "" then [] else [Trim(part)]
  {
    hide Trim;
    assert [part][1..] == [];
  }

  lemma {:induction false} SplitOfJoin(parts: seq<string>)
    requires parts != [] && forall p | p in parts :: ',' !in p
    ensures Split(JoinComma(parts), ',') == parts
  {
    hide Split;
    assert parts[0] in parts;
    if |parts| == 1 {
      SplitNone(parts[0], ',');
    } else {
      assert forall p | p in parts[1..] :: p in parts;
      SplitOfJoin(parts[1..]);
      SplitAtFirst(parts[0], ',', JoinComma(parts[1..]));
      assert parts[0] + [','] + JoinComma(parts[1..]) == JoinComma(parts);
      assert [parts[0]] + parts[1..] == parts;
    }
  }

  /** Whatever stands between the commas: blanks around a URL and blank parts vanish, the order is kept, and a list
      with nothing else in it is the default URL. */
  lemma {:induction false} HubURLsOf(parts: seq<string>)
    requires parts != [] && forall p | p in parts :: ',' !in p
    ensures HubURLs(JoinComma(parts)) == if NonBlank(parts) == [] then ["ws://localhost:8080/ws"] else NonBlank(parts)
  {
    SplitOfJoin(parts);
  }

  lemma {:induction false} AllBlank(parts: seq<string>)
    requires forall p | p in parts :: Trim(p) == ""
    ensures NonBlank(parts) == []
  {
    hide Trim;
    if parts != [] {
      assert parts[0] in parts && forall p | p in parts[1..] :: p in parts;
      AllBlank(parts[1..]);
    }
  }

  function JoinComma(parts: seq<string>): string {
    if parts == [] then "" else if |parts| == 1 then parts[0] else parts[0] + "," + JoinComma(parts[1..])
  }

  /** A list of trimmed, non-empty, comma-free URLs survives being written with commas and read back. */
  lemma {:induction false} HubURLsRoundTrip(urls: seq<string>)
    requires urls != [] && forall u | u in urls :: u != "" && Trimmed(u) && ',' !in u
    ensures HubURLs(JoinComma(urls)) == urls && NonBlank(Split(JoinComma(urls), ',')) == urls
  {
    hide Trim, Trimmed, Split;
    assert urls[0] in urls;
    TrimOfTrimmed(urls[0]);
    if |urls| == 1 {
      SplitNone(urls[0], ',');
      assert NonBlank([urls[0]]) == [urls[0]] + NonBlank([]) && [urls[0]] == urls;
    } else {
      assert forall u | u in urls[1..] :: u in urls;
      HubURLsRoundTrip(urls[1..]);
      SplitAtFirst(urls[0], ',', JoinComma(urls[1..]));
      assert urls[0] + [','] + JoinComma(urls[1..]) == JoinComma(urls);
      var parts := Split(JoinComma(urls), ',');
      assert parts[0] == urls[0] && parts[1..] == Split(JoinComma(urls[1..]), ',');
      assert [urls[0]] + urls[1..] == urls;
    }
  }

  // ---- the loop --------------------------------------------------------------------------

  /** min(2^k, 30) */
  function Wait(k: nat): nat { if Pow2(k) < MAX_BACKOFF then Pow2(k) else MAX_BACKOFF }

  /** The loop is about to pick a URL, or `connectAndRun` is running. `since` counts the failures since the
      start or the last connection; `tried` and `waits` are histories. */
  datatype Loop = Loop(urls: seq<string>, idx: nat, backoff: nat, running: bool,
                       since: nat, tried: seq<string>, waits: seq<(nat, nat)>)

  function Init(urls: seq<string>): Loop { Loop(urls, 0, 1, false, 0, [], []) }

  datatype Event =
    | Pick                        // read the current URL and dial it
    | Connected                   // the dial succeeded: the backoff is reset
    | Ends                        // connectAndRun returns, always with an error: next URL, wait, longer backoff
    | Update(urls: seq<string>)   // the hub sends a new list

  function Step(s: Loop, e: Event): Option<Loop> {
    match e
    case Pick =>
      if s.running || s.idx >= |s.urls| then None else Some(s.(running := true, tried := s.tried + [s.urls[s.idx]]))
    case Connected => if s.running then Some(s.(backoff := 1, since := 0)) else None
    case Ends =>
      if !s.running || |s.urls| == 0 then None
      else
        Some(s.(idx := (s.idx + 1) % |s.urls|, running := false, since := s.since + 1,
                waits := s.waits + [(s.since, s.backoff)],
                backoff := if 2 * s.backoff > MAX_BACKOFF then MAX_BACKOFF else 2 * s.backoff))
    case Update(urls) => Some(if urls == [] then s else s.(urls := urls, idx := 0))
  }

  function Run(s: Loop, es: seq<Event>): Option<Loop>
    decreases |es|
  {
    if es == [] then Some(s)
    else match Step(s, es[0]) case None => None case Some(t) => Run(t, es[1..])
  }

  class Agent {
    var hubURLs: seq<string>
    var activeURLIdx: nat
    var backoff: nat

    ghost predicate Valid()
      reads this
    {
      activeURLIdx < |hubURLs|
    }

    /** NewAgent */
    constructor (hubURL: string)
      ensures Valid() && hubURLs == HubURLs(hubURL) && activeURLIdx == 0 && backoff == 1
    {
      hide Trim, Split;
      var parts := Split(hubURL, ',');
      var urls: seq<string> := [];
      assert parts[0..] == parts;
      for i := 0 to |parts|
        invariant urls + NonBlank(parts[i..]) == NonBlank(parts)
      {
        var u := Trim(parts[i]);
        assert parts[i..][0] == parts[i] && parts[i..][1..] == parts[i + 1..];
        if u != "" {
          urls := urls + [u];
        }
      }
      if |urls| == 0 {
        urls := [DEFAULT_URL];
      }
      hubURLs := urls;
      activeURLIdx := 0;
      backoff := 1;
    }

    /** A turn of the loop up to the call of connectAndRun. */
    method Pick() returns (url: string)
      requires Valid()
      ensures url in hubURLs
      ensures forall s: Loop | !s.running && s.urls == hubURLs && s.idx == activeURLIdx ::
                Step(s, Event.Pick) == Some(s.(running := true, tried := s.tried + [url]))
    {
      url := hubURLs[activeURLIdx];
    }

    method OnConnect()
      modifies this`backoff
      ensures forall s: Loop | s.running :: Step(s, Connected) == Some(s.(backoff := backoff, since := 0))
    {
      backoff := 1;
    }

    /** The rest of the turn; `wait` is how long it sleeps. */
    method Advance() returns (wait: nat)
      requires Valid()
      modifies this`activeURLIdx, this`backoff
      ensures Valid()
      ensures forall s: Loop |
                s.running && s.urls == hubURLs && s.idx == old(activeURLIdx) && s.backoff == old(backoff) ::
                Step(s, Ends) == Some(s.(idx := activeURLIdx, running := false, since := s.since + 1,
                                         waits := s.waits + [(s.since, wait)], backoff := backoff))
    {
      activeURLIdx := (activeURLIdx + 1) % |hubURLs|;
      wait := backoff;
      backoff := backoff * 2;
      if backoff > MAX_BACKOFF {
        backoff := MAX_BACKOFF;
      }
    }

    method UpdateFailoverURLs(newURLs: seq<string>)
      requires Valid()
      modifies this`hubURLs, this`activeURLIdx
      ensures Valid()
      ensures hubURLs == (if newURLs == [] then old(hubURLs) else newURLs)
      ensures activeURLIdx == if newURLs == [] then old(activeURLIdx) else 0
      ensures forall s: Loop | s.urls == old(hubURLs) && s.idx == old(activeURLIdx) ::
                Step(s, Update(newURLs)) == Some(s.(urls := hubURLs, idx := activeURLIdx))
    {
      if |newURLs| > 0 {
        hubURLs := newURLs;
        activeURLIdx := 0;
      }
    }
  }

  // ---- over whole runs -------------------------------------------------------------------

  ghost predicate Inv(s: Loop) {
    && s.idx < |s.urls| && s.backoff == Wait(s.since)
    && (forall i | 0 <= i < |s.waits| :: s.waits[i].1 == Wait(s.waits[i].0))
  }

  lemma {:induction false} RunKeepsInv(s: Loop, es: seq<Event>, t: Loop)
    requires Inv(s) && Run(s, es) == Some(t)
    ensures Inv(t)
    decreases |es|
  {
    if es != [] {
      RunKeepsInv(Step(s, es[0]).value, es[1..], t);
    }
  }

  /** How many attempts have ended since the start or the last connection. */
  function Failures(es: seq<Event>): nat {
    if es == [] then 0
    else match es[|es| - 1]
      case Connected => 0
      case Ends => Failures(es[..|es| - 1]) + 1
      case _ => Failures(es[..|es| - 1])
  }

  lemma {:induction false} SinceIs(s: Loop, es: seq<Event>, t: Loop)
    requires Run(s, es) == Some(t)
    ensures t.since == if exists e :: e in es && e.Connected? then Failures(es) else s.since + Failures(es)
    decreases |es|
  {
    if es != [] {
      var front, e := es[..|es| - 1], es[|es| - 1];
      assert es == front + [e];
      RunLast(s, front, e);
      SinceIs(s, front, Run(s, front).value);
    }
  }

  lemma {:induction false} RunLast(s: Loop, es: seq<Event>, e: Event)
    ensures Run(s, es + [e]) == match Run(s, es) case None => None case Some(t) => Step(t, e)
    decreases |es|
  {
    if es == [] {
      assert es + [e] == [e] && [e][1..] == [];
    } else {
      assert (es + [e])[1..] == es[1..] + [e] && (es + [e])[0] == es[0];
      if Step(s, es[0]).Some? {
        RunLast(Step(s, es[0]).value, es[1..], e);
      }
    }
  }

  lemma StartInv(urls: seq<string>)
    requires urls != []
    ensures Inv(Init(urls)) && Init(urls).since == 0
  {}

  lemma EndOfAttempt(t: Loop)
    requires t.idx < |t.urls| && t.running
    ensures Step(t, Ends).Some? && Step(t, Connected).Some?
    ensures var u := Step(t, Ends).value;
            u.waits == t.waits + [(t.since, t.backoff)] && !u.running && Step(u, Event.Pick).Some?
  {
    assert 0 <= (t.idx + 1) % |t.urls| < |t.urls|;
  }

  /** Whenever an attempt ends, the wait is min(2^k, 30) seconds after k failures since the start or the last
      connection, and the next attempt is possible at once after it. */
  lemma {:induction false} WaitExactly(hubURL: string, es: seq<Event>, t: Loop)
    requires Run(Init(HubURLs(hubURL)), es) == Some(t) && t.running
    ensures Step(t, Ends).Some? && Step(t, Connected).Some?
    ensures var u, k := Step(t, Ends).value, Failures(es);
            && u.waits == t.waits + [(k, if Pow2(k) < 30 then Pow2(k) else 30)]
            && !u.running && Step(u, Event.Pick).Some?
  {
    hide Step, Run, HubURLs, Failures, Pow2;
    StartInv(HubURLs(hubURL));
    RunKeepsInv(Init(HubURLs(hubURL)), es, t);
    SinceIs(Init(HubURLs(hubURL)), es, t);
    EndOfAttempt(t);
  }

  ghost predicate Reachable(hubURL: string, t: Loop) { exists es :: Run(Init(HubURLs(hubURL)), es) == Some(t) }

  /** In every run, with new lists arriving at any moment, the index stays inside the current non-empty list and
      the wait after the k-th failure since the start or the last connection is min(2^k, 30) seconds. */
  lemma {:induction false} IndexAndBackoff(hubURL: string, t: Loop)
    requires Reachable(hubURL, t)
    ensures t.idx < |t.urls|
    ensures forall i | 0 <= i < |t.waits| :: t.waits[i].1 == Wait(t.waits[i].0)
  {
    var es :| Run(Init(HubURLs(hubURL)), es) == Some(t);
    RunKeepsInv(Init(HubURLs(hubURL)), es, t);
  }

  ghost predicate NoUpdate(es: seq<Event>) { forall e | e in es :: !e.Update? }

  function Next(urls: seq<string>, a: nat): (b: nat)
    requires a < |urls|
    ensures b < |urls| && b == (a + 1) % |urls|
  {
    if a + 1 == |urls| then 0 else a + 1
  }

  /** The URLs in the order in which they are tried from index a on. */
  function Rotation(urls: seq<string>, a: nat, n: nat): (r: seq<string>)
    requires a < |urls|
    ensures |r| == n
    decreases n
  {
    if n == 0 then [] else [urls[a]] + Rotation(urls, Next(urls, a), n - 1)
  }

  /** As long as the list stays, the loop tries it round and round. */
  lemma {:induction false} TriesInTurn(s: Loop, es: seq<Event>, t: Loop)
    requires Inv(s) && Run(s, es) == Some(t) && NoUpdate(es)
    ensures |t.tried| >= |s.tried| && t.urls == s.urls
    ensures var a := if s.running then Next(s.urls, s.idx) else s.idx;
            t.tried == s.tried + Rotation(s.urls, a, |t.tried| - |s.tried|)
    decreases |es|
  {
    if es != [] {
      assert es[0] in es;
      var u := Step(s, es[0]).value;
      TriesInTurn(u, es[1..], t);
    }
  }

  lemma {:induction false} RotationUpToEnd(urls: seq<string>, a: nat, n: nat)
    requires a < |urls| && a + n <= |urls|
    ensures Rotation(urls, a, n) == urls[a..a + n]
    decreases n
  {
    if n > 0 {
      assert urls[a..a + n] == [urls[a]] + urls[a + 1..a + n];
      if a + 1 < |urls| {
        RotationUpToEnd(urls, a + 1, n - 1);
      }
    }
  }

  lemma {:induction false} RotationWraps(urls: seq<string>, a: nat, n: nat)
    requires a < |urls| && |urls| - a <= n
    ensures Rotation(urls, a, n) == urls[a..] + Rotation(urls, 0, n - (|urls| - a))
    decreases n
  {
    if a + 1 < |urls| {
      RotationWraps(urls, a + 1, n - 1);
    }
  }

  lemma FullRotation(urls: seq<string>, a: nat)
    requires a < |urls|
    ensures multiset(Rotation(urls, a, |urls|)) == multiset(urls)
  {
    RotationWraps(urls, a, |urls|);
    RotationUpToEnd(urls, 0, a);
    assert urls == urls[..a] + urls[a..];
  }

  /** From the k-th turn on, the same order goes on from some index. */
  lemma {:induction false} RotationPart(urls: seq<string>, a: nat, n: nat, k: nat, m: nat) returns (b: nat)
    requires a < |urls| && k + m <= n
    ensures b < |urls| && Rotation(urls, a, n)[k..k + m] == Rotation(urls, b, m)
    decreases n
  {
    if k > 0 {
      b := RotationPart(urls, Next(urls, a), n - 1, k - 1, m);
    } else {
      b := a;
      if m > 0 {
        RotationHead(urls, a, n, m);
      }
    }
  }

  lemma {:induction false} RotationHead(urls: seq<string>, a: nat, n: nat, m: nat)
    requires a < |urls| && m <= n
    ensures Rotation(urls, a, n)[..m] == Rotation(urls, a, m)
    decreases n
  {
    if m > 0 {
      RotationHead(urls, Next(urls, a), n - 1, m - 1);
    }
  }

  /** Rotation: on an unchanged list of n URLs any n consecutive attempts try each of them once. */
  lemma EachOnce(s: Loop, es: seq<Event>, t: Loop, k: nat)
    requires Inv(s) && Run(s, es) == Some(t) && NoUpdate(es)
    requires |s.tried| <= k && k + |s.urls| <= |t.tried|
    ensures multiset(t.tried[k..k + |s.urls|]) == multiset(s.urls)
  {
    hide Rotation, Run, NoUpdate;
    TriesInTurn(s, es, t);
    var a := if s.running then Next(s.urls, s.idx) else s.idx;
    var n, d := |s.urls|, k - |s.tried|;
    var b := RotationPart(s.urls, a, |t.tried| - |s.tried|, d, n);
    assert t.tried[k..k + n] == Rotation(s.urls, a, |t.tried| - |s.tried|)[d..d + n];
    FullRotation(s.urls, b);
  }

  /** Where a new list is entered, in every run and as long as no further one arrives: at its first hub if it
      came between sessions; but if it came during one, at its second (the first, if it is the only one), because
      the end of the session still moves the index. */
  lemma {:induction false} AfterUpdate(s: Loop, urls: seq<string>, es: seq<Event>, t: Loop)
    requires Inv(s) && urls != [] && NoUpdate(es)
    requires Run(s, [Update(urls)] + es) == Some(t) && |t.tried| > |s.tried|
    ensures t.tried[|s.tried|] == urls[if !s.running || |urls| == 1 then 0 else 1]
    ensures |urls| > 1 && urls[0] != urls[1] ==> (t.tried[|s.tried|] == urls[0] <==> !s.running)
  {
    hide NoUpdate, Rotation;
    var u := Step(s, Update(urls)).value;
    assert ([Update(urls)] + es)[1..] == es;
    TriesInTurn(u, es, t);
    RotationFirst(urls, if s.running then Next(urls, 0) else 0, |t.tried| - |s.tried|);
  }

  lemma RotationFirst(urls: seq<string>, a: nat, n: nat)
    requires a < |urls| && n > 0
    ensures Rotation(urls, a, n)[0] == urls[a]
  {}

  /** `connectAndRun` waits for its handlers before it returns, so lists come during sessions only. */
  ghost predicate ListsInSessions(s: Loop, es: seq<Event>)
    decreases |es|
  {
    || es == []
    || (&& (es[0].Update? ==> s.running)
        && match Step(s, es[0]) case None => true case Some(t) => ListsInSessions(t, es[1..]))
  }

  /** So no list of several hubs is ever entered at its first. */
  lemma {:induction false} NeverFirst(s: Loop, before: seq<Event>, urls: seq<string>, es: seq<Event>, t: Loop)
    requires Inv(s) && |urls| > 1 && urls[0] != urls[1] && NoUpdate(es)
    requires ListsInSessions(s, before + [Update(urls)] + es)
    requires Run(s, before).Some? && Run(Run(s, before).value, [Update(urls)] + es) == Some(t)
    requires |t.tried| > |Run(s, before).value.tried|
    ensures t.tried[|Run(s, before).value.tried|] == urls[1] != urls[0]
    decreases |before|
  {
    hide NoUpdate;
    if before == [] {
      assert before + [Update(urls)] + es == [Update(urls)] + es;
      AfterUpdate(s, urls, es, t);
    } else {
      var u := Step(s, before[0]).value;
      assert (before + [Update(urls)] + es)[1..] == before[1..] + [Update(urls)] + es;
      NeverFirst(u, before[1..], urls, es, t);
    }
  }
}
