/** The store-and-forward queue of the agent: the cache file (agent/cache.go), the tasks that append to it
    and the single flush loop that empties it (agent/client.go). */
module DiskQueue {
  import opened Text

  // ---- the cache file --------------------------------------------------------------------

  /** What is on disk. */
  datatype File<T> = Absent | Holds(subs: seq<T>) | Unreadable

  /** `load`: an absent file is an empty cache. */
  function Load<T>(f: File<T>): (subs: Option<seq<T>>)
    ensures subs.None? <==> f.Unreadable?
  {
    match f
    case Absent => Some([])
    case Holds(subs) => Some(subs)
    case Unreadable => None
  }

  /** Add: a file that cannot be read is replaced by one with the new entry alone. */
  function Appended<T>(f: File<T>, sub: T): File<T> {
    Holds((match Load(f) case Some(subs) => subs case None => []) + [sub])
  }

  /** RemoveOldest: dropping by count; a cache that becomes empty loses its file. */
  function Dropped<T>(f: File<T>, n: nat): File<T> {
    match Load(f)
    case None => f
    case Some(subs) => if |subs| <= n then Absent else Holds(subs[n..])
  }

  class DiskCache<T> {
    var file: File<T>

    constructor (file: File<T>)
      ensures this.file == file
    {
      this.file := file;
    }

    method Add(sub: T)
      modifies this
      ensures file == Appended(old(file), sub)
      ensures old(file).Unreadable? || old(file).Absent? ==> file == Holds([sub])
      ensures old(file).Holds? ==> file == Holds(old(file).subs + [sub])
    {
      var subs := [];
      if Load(file).Some? {
        subs := Load(file).value;
      }
      file := Holds(subs + [sub]);
    }

    /** PopAll: a copy of the contents; the file stays as it is. */
    method PopAll() returns (subs: Option<seq<T>>)
      ensures subs == Load(file)
    {
      subs := Load(file);
    }

    /** Whatever has been appended since the count was taken stays; removing an absent file is an error. */
    method RemoveOldest(n: nat) returns (ok: bool)
      modifies this
      ensures file == Dropped(old(file), n) && ok == old(file).Holds?
      ensures !old(file).Holds? ==> file == old(file)
      ensures old(file).Holds? ==>
                file == if |old(file).subs| <= n then Absent else Holds(old(file).subs[n..])
    {
      var subs := Load(file);
      if subs.None? {
        return false;
      }
      if |subs.value| <= n {
        ok := !file.Absent?;
        file := Absent;
      } else {
        file := Holds(subs.value[n..]);
        ok := true;
      }
    }
  }

  /** A session: what was written to it, and after how many writes it fails. */
  class Session<T> {
    var log: seq<T>
    var good: nat

    constructor (good: nat)
      ensures log == [] && this.good == good
    {
      log := [];
      this.good := good;
    }

    method WriteMessage(sub: T) returns (ok: bool)
      modifies this
      ensures ok == (old(good) > 0)
      ensures log == if ok then old(log) + [sub] else old(log)
      ensures good == if ok then old(good) - 1 else 0
    {
      if good == 0 {
        return false;
      }
      log := log + [sub];
      good := good - 1;
      ok := true;
    }
  }

  /** flushCache when nothing runs beside it: the session gets a prefix of the queue and exactly this prefix
      leaves it. */
  method FlushCache<T>(cache: DiskCache<T>, session: Session?<T>) returns (sentCount: nat)
    modifies cache, session
    ensures session == null || Load(old(cache.file)).None? ==> sentCount == 0 && cache.file == old(cache.file)
    ensures session != null && Load(old(cache.file)).Some? ==>
              var was := Load(old(cache.file)).value;
              && sentCount == (if |was| <= old(session.good) then |was| else old(session.good))
              && session.log == old(session.log) + was[..sentCount]
              && Load(cache.file) == Some(was[sentCount..])
  {
    sentCount := 0;
    if session == null {
      return;
    }
    var subs := cache.PopAll();
    if subs.None? || |subs.value| == 0 {
      return;
    }
    ghost var was := subs.value;
    for i := 0 to |subs.value|
      invariant sentCount == i && session.good == old(session.good) - i
      invariant session.log == old(session.log) + was[..i]
      invariant cache.file == old(cache.file)
    {
      var ok := session.WriteMessage(subs.value[i]);
      if !ok {
        break;
      }
      assert was[..i + 1] == was[..i] + [was[i]];
      sentCount := sentCount + 1;
    }
    assert was[0..] == was && was[|was|..] == [];
    if sentCount > 0 {
      var removed := cache.RemoveOldest(sentCount);
    }
  }

  // ---- everything interleaved ------------------------------------------------------------

  /** The flush loop: idle, or past its snapshot with some entries written. */
  datatype Flush<T> = Idle | Sending(snapshot: seq<T>, sent: nat)

  /** An entry as it was written to a session, with the number of entries added before it. */
  datatype Written<T> = Written(pos: nat, sub: T)

  /** `added`, `removed` and `log` are histories: what tasks have added, what has left the file, and what was
      written to sessions. */
  datatype Queue<T> = Queue(file: File<T>, flush: Flush<T>, added: seq<T>, removed: seq<T>, log: seq<Written<T>>)

  datatype Event<T> =
    | Adds(sub: T)          // a scheduled task has a result
    | FlushBegins           // the loop finds a session and takes its snapshot
    | WriteOne              // the next entry of the snapshot is written
    | FlushEnds             // a write failed or the snapshot is done: the written entries are removed
    | Restart               // the agent is restarted; only the file survives

  function Init<T>(): Queue<T> { Queue(Absent, Idle, [], [], []) }

  /** None: the event cannot happen. The file stays readable and saves succeed. */
  function Step<T>(q: Queue<T>, e: Event<T>): Option<Queue<T>> {
    if q.file.Unreadable? then None
    else
      var cached := Load(q.file).value;
      match e
      case Adds(sub) => Some(q.(file := Appended(q.file, sub), added := q.added + [sub]))
      case FlushBegins =>
        if q.flush.Idle? && cached != [] then Some(q.(flush := Sending(cached, 0))) else None
      case WriteOne =>
        if q.flush.Sending? && q.flush.sent < |q.flush.snapshot|
        then
          var k := q.flush.sent;
          Some(q.(flush := q.flush.(sent := k + 1), log := q.log + [Written(|q.removed| + k, q.flush.snapshot[k])]))
        else None
      case FlushEnds =>
        if q.flush.Idle? then None
        else if q.flush.sent == 0 then Some(q.(flush := Idle))
        else
          var n := q.flush.sent;
          Some(q.(flush := Idle, file := Dropped(q.file, n),
                  removed := q.removed + if |cached| <= n then cached else cached[..n]))
      case Restart => Some(q.(flush := Idle))
  }

  function Run<T>(q: Queue<T>, es: seq<Event<T>>): Option<Queue<T>>
    decreases |es|
  {
    if es == [] then Some(q)
    else match Step(q, es[0]) case None => None case Some(r) => Run(r, es[1..])
  }

  ghost predicate Reachable<T(!new)>(q: Queue<T>) { exists es :: Run(Init<T>(), es) == Some(q) }

  /** One more than the largest position written so far. */
  function High<T>(log: seq<Written<T>>): nat {
    if log == [] then 0
    else
      var h, k := High(log[..|log| - 1]), log[|log| - 1].pos;
      if k < h then h else k + 1
  }

  /** No entry is written for the first time before the ones added ahead of it. */
  ghost predicate InOrder<T>(log: seq<Written<T>>) {
    forall i | 0 <= i < |log| :: log[i].pos <= High(log[..i])
  }

  /** What is written under a position is what was added there. */
  ghost predicate Truthful<T>(log: seq<Written<T>>, added: seq<T>) {
    forall w | w in log :: w.pos < |added| && w.sub == added[w.pos]
  }

  ghost predicate Inv<T>(q: Queue<T>) {
    && !q.file.Unreadable?
    && q.added == q.removed + Load(q.file).value
    && (q.flush.Sending? ==>
          && q.flush.sent <= |q.flush.snapshot| && q.flush.snapshot <= Load(q.file).value
          && |q.removed| + q.flush.sent <= High(q.log))
    && InOrder(q.log) && |q.removed| <= High(q.log) <= |q.added|
    && Truthful(q.log, q.added)
  }

  lemma LogStep<T>(log: seq<Written<T>>, w: Written<T>)
    requires InOrder(log) && w.pos <= High(log)
    ensures InOrder(log + [w]) && High(log + [w]) == if w.pos < High(log) then High(log) else w.pos + 1
  {
    var more := log + [w];
    assert more[..|more| - 1] == log;
    forall i | 0 <= i < |more| ensures more[i].pos <= High(more[..i]) {
      assert more[..i] == log[..i];
    }
    assert log[..|log|] == log;
  }

  lemma InvAdds<T>(q: Queue<T>, sub: T, r: Queue<T>)
    requires Inv(q) && Step(q, Adds(sub)) == Some(r)
    ensures Inv(r)
  {
    hide InOrder, High;
    var cached := Load(q.file).value;
    assert q.added + [sub] == q.removed + (cached + [sub]);
  }

  /** The next entry of the snapshot is still the entry at its position in the queue. */
  lemma NextInQueue<T>(q: Queue<T>)
    requires Inv(q) && q.flush.Sending? && q.flush.sent < |q.flush.snapshot|
    ensures var k := q.flush.sent;
            |q.removed| + k < |q.added| && q.added[|q.removed| + k] == q.flush.snapshot[k]
  {}

  lemma InvWrite<T>(q: Queue<T>, r: Queue<T>)
    requires Inv(q) && Step(q, WriteOne) == Some(r)
    ensures Inv(r)
  {
    hide InOrder, High, Truthful;
    NextInQueue(q);
    LogStep(q.log, r.log[|q.log|]);
    TruthfulPush(q.log, q.added, r.log[|q.log|]);
  }

  lemma TruthfulPush<T>(log: seq<Written<T>>, added: seq<T>, w: Written<T>)
    requires Truthful(log, added) && w.pos < |added| && w.sub == added[w.pos]
    ensures Truthful(log + [w], added)
  {}

  /** Removing by count splits the list. */
  lemma DroppedRest<T>(file: File<T>, n: nat)
    requires Load(file).Some? && n <= |Load(file).value|
    ensures var cached := Load(file).value;
            var gone := if |cached| <= n then cached else cached[..n];
            && !Dropped(file, n).Unreadable? && gone + Load(Dropped(file, n)).value == cached
            && |gone| == n && gone == cached[..n]
  {}

  lemma InvFlushEnds<T>(q: Queue<T>, r: Queue<T>)
    requires Inv(q) && Step(q, FlushEnds) == Some(r)
    ensures Inv(r)
  {
    hide InOrder, High, Truthful, Load, Dropped;
    if q.flush.sent > 0 {
      var cached, n := Load(q.file).value, q.flush.sent;
      assert n <= |cached|;
      DroppedRest(q.file, n);
      var rest := Load(Dropped(q.file, n)).value;
      assert q.removed + (cached[..n] + rest) == q.removed + cached[..n] + rest;
    }
  }

  lemma InvStep<T>(q: Queue<T>, e: Event<T>, r: Queue<T>)
    requires Inv(q) && Step(q, e) == Some(r)
    ensures Inv(r)
  {
    hide InOrder, High, Truthful;
    match e
    case Adds(sub) => InvAdds(q, sub, r);
    case WriteOne => InvWrite(q, r);
    case FlushEnds => InvFlushEnds(q, r);
    case FlushBegins =>
    case Restart =>
  }

  lemma {:induction false} RunKeepsInv<T>(q: Queue<T>, es: seq<Event<T>>, r: Queue<T>)
    requires Inv(q) && Run(q, es) == Some(r)
    ensures Inv(r)
    decreases |es|
  {
    if es != [] {
      InvStep(q, es[0], Step(q, es[0]).value);
      RunKeepsInv(Step(q, es[0]).value, es[1..], r);
    }
  }

  lemma {:induction false} BelowHigh<T>(log: seq<Written<T>>, p: nat) returns (w: Written<T>)
    requires InOrder(log) && p < High(log)
    ensures w in log && w.pos == p
  {
    var n := |log| - 1;
    assert log[n].pos <= High(log[..n]);
    if p == log[n].pos {
      w := log[n];
    } else {
      InOrderPrefix(log, n);
      w := BelowHigh(log[..n], p);
    }
  }

  lemma WrittenBelow<T>(log: seq<Written<T>>, added: seq<T>, p: nat)
    requires InOrder(log) && Truthful(log, added) && p < High(log)
    ensures p < |added| && Written(p, added[p]) in log
  {
    var w := BelowHigh(log, p);
    assert w == Written(p, added[p]);
  }

  /** Conservation: in every interleaving of tasks, flushes, failed writes and restarts, nothing that was added
      is lost or reordered; every write is an entry that was added; every entry that left the file was
      written to a session; and no entry is written before those that were added ahead of it. */
  lemma {:induction false} Conservation<T(!new)>(q: Queue<T>)
    requires Reachable(q)
    ensures !q.file.Unreadable? && q.added == q.removed + Load(q.file).value
    ensures forall w | w in q.log :: w.pos < |q.added| && w.sub == q.added[w.pos]
    ensures forall p: nat | p < |q.removed| :: Written(p, q.removed[p]) in q.log
    ensures forall i, p: nat | 0 <= i < |q.log| && p < q.log[i].pos ::
            p < |q.added| && Written(p, q.added[p]) in q.log[..i]
  {
    hide High;
    var es :| Run(Init<T>(), es) == Some(q);
    InitInv<T>();
    RunKeepsInv(Init<T>(), es, q);
    forall p: nat | p < |q.removed| ensures Written(p, q.removed[p]) in q.log {
      WrittenBelow(q.log, q.added, p);
    }
    forall i, p: nat | 0 <= i < |q.log| && p < q.log[i].pos
      ensures p < |q.added| && Written(p, q.added[p]) in q.log[..i]
    {
      InOrderPrefix(q.log, i);
      assert forall w | w in q.log[..i] :: w in q.log;
      WrittenBelow(q.log[..i], q.added, p);
    }
  }

  lemma InitInv<T>()
    ensures Inv(Init<T>()) && Clean(Init<T>())
  {}

  lemma InOrderPrefix<T>(log: seq<Written<T>>, i: nat)
    requires InOrder(log) && i <= |log|
    ensures InOrder(log[..i])
  {
    forall j | 0 <= j < |log[..i]| ensures log[..i][j].pos <= High(log[..i][..j]) {
      assert log[..i][..j] == log[..j];
    }
  }

  /** A running flush can always end, and then the entries that it has written are gone from the cache, no others. */
  lemma FlushCanEnd<T>(q: Queue<T>)
    requires Inv(q) && q.flush.Sending?
    ensures Step(q, FlushEnds).Some?
    ensures var r, k := Step(q, FlushEnds).value, q.flush.sent;
            && r.flush == Idle && r.added == q.added && r.log == q.log && k <= |q.flush.snapshot|
            && r.removed == q.removed + q.flush.snapshot[..k] && Load(r.file) == Some(Load(q.file).value[k..])
  {
    hide InOrder, High, Truthful;
    var cached, k := Load(q.file).value, q.flush.sent;
    assert q.flush.snapshot[..k] == cached[..k] && cached[0..] == cached && cached[..0] == [];
    assert cached[|cached|..] == [];
  }

  lemma {:induction false} WritesAll<T>(q: Queue<T>) returns (es: seq<Event<T>>, r: Queue<T>)
    requires Inv(q) && q.flush.Sending?
    ensures Run(q, es) == Some(r) && Inv(r) && r.file == q.file && r.added == q.added && r.removed == q.removed
    ensures r.flush == Sending(q.flush.snapshot, |q.flush.snapshot|)
    decreases |q.flush.snapshot| - q.flush.sent
  {
    hide InOrder, High, Truthful;
    if q.flush.sent == |q.flush.snapshot| {
      es, r := [], q;
    } else {
      var u := Step(q, WriteOne).value;
      InvStep(q, WriteOne, u);
      es, r := WritesAll(u);
      RunFirst(q, WriteOne, es);
      es := [WriteOne] + es;
    }
  }

  lemma RunFirst<T>(q: Queue<T>, e: Event<T>, es: seq<Event<T>>)
    requires Step(q, e).Some?
    ensures Run(q, [e] + es) == Run(Step(q, e).value, es)
  {
    assert ([e] + es)[1..] == es;
  }

  /** The cache can always be emptied: from every reachable state with no flush under way, one that no write stops
      sends everything and leaves no file. */
  lemma {:induction false} CanBeEmptied<T(!new)>(q: Queue<T>) returns (es: seq<Event<T>>, r: Queue<T>)
    requires Reachable(q) && q.flush.Idle? && Load(q.file) != Some([])
    ensures Run(q, [FlushBegins] + es + [FlushEnds]) == Some(r)
    ensures r.added == q.added == r.removed && r.file == Absent
  {
    hide InOrder, High, Truthful, Run;
    var before :| Run(Init<T>(), before) == Some(q);
    InitInv<T>();
    RunKeepsInv(Init<T>(), before, q);
    var a := Step(q, FlushBegins).value;
    InvStep(q, FlushBegins, a);
    var b;
    es, b := WritesAll(a);
    FlushCanEnd(b);
    r := Step(b, FlushEnds).value;
    RunFirst(q, FlushBegins, es + [FlushEnds]);
    RunLast(a, es, FlushEnds);
    assert [FlushBegins] + es + [FlushEnds] == [FlushBegins] + (es + [FlushEnds]);
    var cached := Load(q.file).value;
    assert cached[..|cached|] == cached;
  }

  lemma {:induction false} RunLast<T>(q: Queue<T>, es: seq<Event<T>>, e: Event<T>)
    requires Run(q, es).Some?
    ensures Run(q, es + [e]) == Step(Run(q, es).value, e)
    decreases |es|
  {
    if es == [] {
      assert es + [e] == [e] && [e][1..] == [];
    } else {
      assert (es + [e])[1..] == es[1..] + [e] && (es + [e])[0] == es[0];
      RunLast(Step(q, es[0]).value, es[1..], e);
    }
  }

  // ---- entries that are written twice ----------------------------------------------------

  /** What the sessions got, one after the other. */
  function Contents<T>(log: seq<Written<T>>): seq<T> { seq(|log|, i requires 0 <= i < |log| => log[i].sub) }

  ghost predicate NoRepeats<T>(log: seq<Written<T>>) { forall i, j | 0 <= i < j < |log| :: log[i].pos != log[j].pos }

  function Sent<T>(q: Queue<T>): nat { if q.flush.Sending? then q.flush.sent else 0 }

  /** A restart that stops a flush after it has written something and before it has removed it. */
  predicate CutsShort<T>(q: Queue<T>, e: Event<T>) { e.Restart? && Sent(q) > 0 }

  ghost predicate WritesAgain<T>(es: seq<Event<T>>) { exists e :: e in es && e.WriteOne? }

  /** Some restart of the run cuts a flush short, and later in the run something is written. */
  ghost predicate Interrupted<T>(q: Queue<T>, es: seq<Event<T>>)
    decreases |es|
  {
    && es != []
    && (|| (CutsShort(q, es[0]) && WritesAgain(es[1..]))
        || match Step(q, es[0]) case None => false case Some(r) => Interrupted(r, es[1..]))
  }

  /** The positions written are 0, 1, 2, ... and all of them but those of the running flush have left. */
  ghost predicate Clean<T>(q: Queue<T>) {
    (forall i | 0 <= i < |q.log| :: q.log[i].pos == i) && |q.log| == |q.removed| + Sent(q)
  }

  /** An entry that was written is still in the queue, and the next flush will begin with it. */
  ghost predicate Dirty<T>(q: Queue<T>) { Sent(q) == 0 && |q.removed| < High(q.log) }

  lemma {:induction false} HighOfClean<T>(log: seq<Written<T>>)
    requires forall i | 0 <= i < |log| :: log[i].pos == i
    ensures High(log) == |log| && NoRepeats(log)
  {
    if log != [] {
      HighOfClean(log[..|log| - 1]);
    }
  }

  lemma CleanStep<T>(q: Queue<T>, e: Event<T>, r: Queue<T>)
    requires Inv(q) && Clean(q) && Step(q, e) == Some(r) && !CutsShort(q, e)
    ensures Clean(r)
  {
    hide InOrder, High, Truthful;
    match e
    case Adds(_) =>
    case FlushBegins =>
    case WriteOne =>
    case FlushEnds => if q.flush.sent > 0 { DroppedRest(q.file, q.flush.sent); }
    case Restart =>
  }

  lemma CutIsDirty<T>(q: Queue<T>, e: Event<T>, r: Queue<T>)
    requires Clean(q) && Step(q, e) == Some(r) && CutsShort(q, e)
    ensures Dirty(r) && r.log == q.log
  {
    HighOfClean(q.log);
  }

  lemma DirtyStep<T>(q: Queue<T>, e: Event<T>, r: Queue<T>)
    requires Dirty(q) && Step(q, e) == Some(r) && !e.WriteOne?
    ensures Dirty(r)
  {
    hide High;
  }

  lemma LogKept<T>(q: Queue<T>, e: Event<T>, r: Queue<T>)
    requires Step(q, e) == Some(r)
    ensures q.log <= r.log && (!e.WriteOne? ==> r.log == q.log)
  {}

  lemma {:induction false} RunKeepsLog<T>(q: Queue<T>, es: seq<Event<T>>, r: Queue<T>)
    requires Run(q, es) == Some(r)
    ensures q.log <= r.log && (!WritesAgain(es) ==> r.log == q.log)
    decreases |es|
  {
    hide Step;
    if es != [] {
      var u := Step(q, es[0]).value;
      LogKept(q, es[0], u);
      RunKeepsLog(u, es[1..], r);
      assert es[0] in es && forall e | e in es[1..] :: e in es;
    }
  }

  lemma RepeatsStay<T>(log: seq<Written<T>>, more: seq<Written<T>>)
    requires log <= more && !NoRepeats(log)
    ensures !NoRepeats(more)
  {
    var i, j :| 0 <= i < j < |log| && log[i].pos == log[j].pos;
    assert more[i] == log[i] && more[j] == log[j];
  }

  /** The next entry written from a dirty queue was written before. */
  lemma DirtyWrite<T>(q: Queue<T>, r: Queue<T>)
    requires Inv(q) && Dirty(q) && Step(q, WriteOne) == Some(r)
    ensures !NoRepeats(r.log)
  {
    hide High, Truthful;
    var w := BelowHigh(q.log, |q.removed|);
    var i :| 0 <= i < |q.log| && q.log[i] == w;
    assert r.log[i].pos == r.log[|q.log|].pos;
  }

  lemma {:induction false} DirtyRepeats<T>(q: Queue<T>, es: seq<Event<T>>, r: Queue<T>)
    requires Inv(q) && Dirty(q) && Run(q, es) == Some(r) && WritesAgain(es)
    ensures !NoRepeats(r.log)
    decreases |es|
  {
    hide Inv, Dirty, Step, NoRepeats;
    var u := Step(q, es[0]).value;
    if es[0].WriteOne? {
      DirtyWrite(q, u);
      RunKeepsLog(u, es[1..], r);
      RepeatsStay(u.log, r.log);
    } else {
      InvStep(q, es[0], u);
      DirtyStep(q, es[0], u);
      DirtyRepeats(u, es[1..], r);
    }
  }

  lemma {:induction false} NoWritesNoHarm<T>(q: Queue<T>, es: seq<Event<T>>)
    requires !WritesAgain(es)
    ensures !Interrupted(q, es)
    decreases |es|
  {
    hide Step;
    if es != [] {
      assert forall e | e in es[1..] :: e in es;
      if Step(q, es[0]).Some? {
        NoWritesNoHarm(Step(q, es[0]).value, es[1..]);
      }
    }
  }

  lemma {:induction false} CleanRun<T>(q: Queue<T>, es: seq<Event<T>>, r: Queue<T>)
    requires Inv(q) && Clean(q) && Run(q, es) == Some(r)
    ensures NoRepeats(r.log) <==> !Interrupted(q, es)
    ensures NoRepeats(r.log) ==> forall i | 0 <= i < |r.log| :: r.log[i].pos == i
    decreases |es|
  {
    hide Inv, Step, CutsShort, NoRepeats, WritesAgain;
    if es == [] {
      HighOfClean(q.log);
    } else {
      var u := Step(q, es[0]).value;
      InvStep(q, es[0], u);
      if !CutsShort(q, es[0]) {
        CleanStep(q, es[0], u);
        CleanRun(u, es[1..], r);
      } else {
        CutIsDirty(q, es[0], u);
        if WritesAgain(es[1..]) {
          DirtyRepeats(u, es[1..], r);
        } else {
          RunKeepsLog(u, es[1..], r);
          NoWritesNoHarm(u, es[1..]);
          HighOfClean(q.log);
        }
      }
    }
  }

  lemma ContentsPrefix<T>(log: seq<Written<T>>, added: seq<T>)
    requires Truthful(log, added) && forall i | 0 <= i < |log| :: log[i].pos == i
    ensures Contents(log) <= added
  {
    if log != [] {
      assert log[|log| - 1] in log;
    }
    assert |Contents(log)| <= |added|;
    forall i | 0 <= i < |log| ensures Contents(log)[i] == added[i] {
      assert log[i] in log;
    }
  }

  /** Which runs write an entry twice: exactly those in which a restart stops a flush between a write and the
      removal, and something is written afterwards. In all others the sessions have got a prefix of what was
      added, each entry once and in order. */
  lemma {:induction false} RepeatsExactly<T(!new)>(es: seq<Event<T>>, q: Queue<T>)
    requires Run(Init<T>(), es) == Some(q)
    ensures NoRepeats(q.log) <==> !Interrupted(Init<T>(), es)
    ensures !Interrupted(Init<T>(), es) ==> Contents(q.log) <= q.added
  {
    hide NoRepeats, Interrupted, Run, InOrder, High;
    InitInv<T>();
    RunKeepsInv(Init<T>(), es, q);
    CleanRun(Init<T>(), es, q);
    if NoRepeats(q.log) {
      ContentsPrefix(q.log, q.added);
    }
  }

  lemma {:induction false} NoRestartNoHarm<T>(q: Queue<T>, es: seq<Event<T>>, r: Queue<T>)
    requires Inv(q) && Clean(q) && Run(q, es) == Some(r) && Restart !in es
    ensures Clean(r) && !Interrupted(q, es)
    decreases |es|
  {
    hide Inv, Step, Clean;
    if es != [] {
      assert es[0] in es;
      InvStep(q, es[0], Step(q, es[0]).value);
      CleanStep(q, es[0], Step(q, es[0]).value);
      NoRestartNoHarm(Step(q, es[0]).value, es[1..], r);
    }
  }

  /** Without restarts nothing is written twice, and between flushes exactly the entries that have left the file have
      been written. */
  lemma {:induction false} ExactlyOnceWithoutRestart<T(!new)>(es: seq<Event<T>>, q: Queue<T>)
    requires Run(Init<T>(), es) == Some(q) && Restart !in es
    ensures Contents(q.log) <= q.added
    ensures q.flush.Idle? ==> Contents(q.log) == q.removed
  {
    hide InOrder, High, Truthful, Interrupted, Run;
    InitInv<T>();
    NoRestartNoHarm(Init<T>(), es, q);
    RepeatsExactly(es, q);
    RunKeepsInv(Init<T>(), es, q);
    assert q.removed <= q.added;
  }

  /** With a restart between a write and its removal an entry is written twice. */
  lemma RestartRepeats<T>(sub: T) returns (es: seq<Event<T>>, q: Queue<T>)
    ensures Run(Init<T>(), es) == Some(q) && Contents(q.log) == [sub, sub] && q.added == [sub]
  {
    es := [Adds(sub), FlushBegins, WriteOne, Restart, FlushBegins, WriteOne];
    var q1 := Step(Init<T>(), es[0]).value;
    var q2 := Step(q1, es[1]).value;
    var q3 := Step(q2, es[2]).value;
    var q4 := Step(q3, es[3]).value;
    var q5 := Step(q4, es[4]).value;
    q := Step(q5, es[5]).value;
    RunCons(Init<T>(), es);
    RunCons(q1, es[1..]);
    RunCons(q2, es[2..]);
    RunCons(q3, es[3..]);
    RunCons(q4, es[4..]);
    RunCons(q5, es[5..]);
  }

  lemma RunCons<T>(q: Queue<T>, es: seq<Event<T>>)
    requires es != [] && Step(q, es[0]).Some?
    ensures Run(q, es) == Run(Step(q, es[0]).value, es[1..])
  {}
}
