/** The parser of traceroute output (agent/client.go). F stands for float64. */
module Traceroute {
  import opened Text

  datatype Hop<F> = Hop(hop: int, host: string, ip: string, rtts: seq<F>)

  // ---- strings.Fields, strings.HasPrefix, strings.Trim(s, "()") --------------------------------

  /** The length of the run of other characters than white space at the front of s. */
  function WordLength(s: string): (n: nat)
    ensures n <= |s| && NoSpace(s[..n]) && (n < |s| ==> IsSpace(s[n]))
  {
    if s == "" || IsSpace(s[0]) then 0
    else
      var n := WordLength(s[1..]);
      assert s[..1 + n] == [s[0]] + s[1..][..n];
      1 + n
  }

  function Fields(s: string): seq<string>
    decreases |s|
  {
    if s == "" then []
    else if IsSpace(s[0]) then Fields(s[1..])
    else
      assert WordLength(s) > 0;
      [s[..WordLength(s)]] + Fields(s[WordLength(s)..])
  }

  predicate HasPrefix(s: string, prefix: string) { prefix <= s }

  predicate InParens(s: string) { s != "" && s[0] == '(' && s[|s| - 1] == ')' }

  predicate IsParen(c: char) { c == '(' || c == ')' }

  function TrimParens(s: string): string
    decreases |s|
  {
    if s == "" then ""
    else if IsParen(s[0]) then TrimParens(s[1..])
    else if IsParen(s[|s| - 1]) then TrimParens(s[..|s| - 1])
    else s
  }

  // ---- the parser ------------------------------------------------------------------------------

  /** The round-trip times among these fields: each number that "ms" follows. */
  function RTTs<F>(fields: seq<string>, parse: string -> Option<F>): seq<F>
    decreases |fields|
  {
    if fields == [] then []
    else if fields[0] == "*" then RTTs(fields[1..], parse)
    else if parse(fields[0]).Some? && |fields| > 1 && fields[1] == "ms" then
      [parse(fields[0]).value] + RTTs(fields[2..], parse)
    else RTTs(fields[1..], parse)
  }

  function HopOf<F>(fields: seq<string>, parse: string -> Option<F>): Option<Hop<F>> {
    if |fields| < 2 then None
    else
      match Atoi(fields[0])
      case None => None
      case Some(n) =>
        if fields[1] == "*" then Some(Hop(n, "*", "*", []))
        else if |fields| > 2 && InParens(fields[2]) then
          Some(Hop(n, fields[1], TrimParens(fields[2]), RTTs(fields[3..], parse)))
        else Some(Hop(n, fields[1], fields[1], RTTs(fields[2..], parse)))
  }

  function ParseLine<F>(line: string, parse: string -> Option<F>): Option<Hop<F>> {
    if HasPrefix(Trim(line), "traceroute to") then None else HopOf(Fields(Trim(line)), parse)
  }

  function Hops<F>(lines: seq<string>, parse: string -> Option<F>): seq<Hop<F>> {
    if lines == [] then []
    else
      Hops(lines[..|lines| - 1], parse) +
      match ParseLine(lines[|lines| - 1], parse) case Some(h) => [h] case None => []
  }

  /** The inner loop, with its index advanced by two past a number and its unit. */
  method CollectRTTs<F>(fields: seq<string>, start: nat, parse: string -> Option<F>) returns (rtts: seq<F>)
    requires start <= |fields|
    ensures rtts == RTTs(fields[start..], parse)
  {
    rtts := [];
    var i := start;
    while i < |fields|
      invariant i <= |fields|
      invariant rtts + RTTs(fields[i..], parse) == RTTs(fields[start..], parse)
    {
      var token := fields[i];
      assert fields[i..][1..] == fields[i + 1..];
      if token == "*" {
        i := i + 1;
        continue;
      }
      var val := parse(token);
      if val.Some? {
        if i + 1 < |fields| && fields[i + 1] == "ms" {
          assert fields[i..][2..] == fields[i + 2..];
          rtts := rtts + [val.value];
          i := i + 1;
        }
      }
      i := i + 1;
    }
    assert fields[i..] == [];
  }

  /** One turn of the loop over the lines: a hop to append, or nothing. */
  method ParseTracerouteLine<F>(text: string, parse: string -> Option<F>) returns (hop: Option<Hop<F>>)
    ensures hop == ParseLine(text, parse)
  {
    hide RTTs, Fields, Trim, TrimParens, InParens, Atoi;
    var line := Trim(text);
    if line == "" {
      NoFields();
      return None;
    }
    if HasPrefix(line, "traceroute to") {
      return None;
    }
    var fields := Fields(line);
    if |fields| < 2 {
      return None;
    }
    var hopNum := Atoi(fields[0]);
    if hopNum.None? {
      return None;
    }
    if fields[1] == "*" {
      return Some(Hop(hopNum.value, "*", "*", []));
    }
    var host, ip, rttStartIndex := fields[1], fields[1], 2;
    if |fields| > 2 && InParens(fields[2]) {
      ip := TrimParens(fields[2]);
      rttStartIndex := 3;
    }
    var rtts := CollectRTTs(fields, rttStartIndex, parse);
    return Some(Hop(hopNum.value, host, ip, rtts));
  }

  method ParseTracerouteOutput<F>(output: string, parse: string -> Option<F>) returns (hops: seq<Hop<F>>)
    ensures hops == Hops(Split(output, '\n'), parse)
  {
    hide ParseLine;
    hops := [];
    var lines := Split(output, '\n');
    for i := 0 to |lines|
      invariant hops == Hops(lines[..i], parse)
    {
      assert lines[..i + 1][..i] == lines[..i];
      var hop := ParseTracerouteLine(lines[i], parse);
      if hop.Some? {
        hops := hops + [hop.value];
      }
    }
    assert lines[..|lines|] == lines;
  }

  lemma NoFields()
    ensures Fields("") == []
  {}

  // ---- what traceroute prints ------------------------------------------------------------------

  /** A router, named with its address or by its address alone. */
  datatype Router = Router(host: string, ip: Option<string>) {
    function Address(): string { match ip case Some(a) => a case None => host }
  }

  /** An answered probe: by whom, how long it took, and a note such as !H, or "". */
  datatype Reply<F> = Reply(router: Router, time: F, note: string)

  /** One hop as measured: for every probe its answer, or None when it got none. */
  datatype Probed<F> = Probed(hop: nat, probes: seq<Option<Reply<F>>>)

  function RouterFields(r: Router): seq<string> {
    [r.host] + match r.ip case Some(ip) => ["(" + ip + ")"] case None => []
  }

  function TimeFields<F>(r: Reply<F>, show: F -> string): seq<string> {
    [show(r.time), "ms"] + if r.note == "" then [] else [r.note]
  }

  /** A router is named at its first answer and whenever the last answer came from another one. */
  function ProbeFields<F(==)>(probes: seq<Option<Reply<F>>>, last: Option<Router>, show: F -> string): seq<string> {
    if probes == [] then []
    else match probes[0]
      case None => ["*"] + ProbeFields(probes[1..], last, show)
      case Some(r) =>
        (if last == Some(r.router) then [] else RouterFields(r.router))
        + (TimeFields(r, show) + ProbeFields(probes[1..], Some(r.router), show))
  }

  function HopFields<F(==)>(h: Probed<F>, show: F -> string): seq<string> {
    [Itoa(h.hop)] + ProbeFields(h.probes, None, show)
  }

  predicate Word(s: string) { s != "" && NoSpace(s) }

  predicate ValidRouter(r: Router) {
    && Word(r.host) && r.host != "*"
    && (r.ip.Some? ==> NoSpace(r.ip.value) && forall c | c in r.ip.value :: !IsParen(c))
  }

  predicate ValidReply<F>(r: Reply<F>) {
    ValidRouter(r.router) && (r.note != "" ==> Word(r.note) && r.note[0] == '!')
  }

  ghost predicate ValidProbes<F>(probes: seq<Option<Reply<F>>>) {
    forall p | p in probes && p.Some? :: ValidReply(p.value)
  }

  ghost predicate ValidProbed<F>(h: Probed<F>) {
    h.hop < 0x8000_0000_0000_0000 && h.probes != [] && ValidProbes(h.probes)
  }

  /** What is used of numbers in print: strconv.ParseFloat reads them back, they are single words, and it does not
      read the notes. */
  ghost predicate Prints<F(!new)>(show: F -> string, parse: string -> Option<F>) {
    && (forall v ::
          Word(show(v)) && show(v) != "*" && show(v) != "ms" && show(v)[0] != '(' && parse(show(v)) == Some(v))
    && (forall s | s != "" && s[0] == '!' :: parse(s).None?)
  }

  // ---- what a record says ----------------------------------------------------------------------

  /** An answer: host, address and time. */
  datatype Answer<F> = Answer(host: string, ip: string, time: F)

  function Answers<F>(probes: seq<Option<Reply<F>>>): seq<Answer<F>> {
    if probes == [] then []
    else
      (match probes[0] case Some(r) => [Answer(r.router.host, r.router.Address(), r.time)] case None => [])
      + Answers(probes[1..])
  }

  function Times<F>(answers: seq<Answer<F>>): (ts: seq<F>)
    ensures |ts| == |answers|
  {
    seq(|answers|, i requires 0 <= i < |answers| => answers[i].time)
  }

  /** A record has one host and says that all its times are that host's. */
  function Claims<F>(rec: Hop<F>): seq<Answer<F>> {
    seq(|rec.rtts|, i requires 0 <= i < |rec.rtts| => Answer(rec.host, rec.ip, rec.rtts[i]))
  }

  /** The record says exactly what was measured, and names no host for a silent hop. */
  predicate Right<F(==)>(rec: Hop<F>, h: Probed<F>) {
    rec.hop == h.hop && Claims(rec) == Answers(h.probes) && (Answers(h.probes) == [] ==> rec.host == rec.ip == "*")
  }

  // ---- reading the fields back -----------------------------------------------------------------

  lemma {:induction false} RTTsSkip<F>(token: string, rest: seq<string>, parse: string -> Option<F>)
    requires token == "*" || parse(token).None? || (rest != [] && rest[0] != "ms")
    ensures RTTs([token] + rest, parse) == RTTs(rest, parse)
  {
    assert ([token] + rest)[1..] == rest;
  }

  lemma {:induction false} RTTsTime<F(!new)>(
      r: Reply<F>, rest: seq<string>, show: F -> string, parse: string -> Option<F>)
    requires Prints(show, parse) && ValidReply(r)
    ensures RTTs(TimeFields(r, show) + rest, parse) == [r.time] + RTTs(rest, parse)
  {
    hide Word;
    var more := (if r.note == "" then [] else [r.note]) + rest;
    var fields := TimeFields(r, show) + rest;
    assert fields == [show(r.time), "ms"] + more;
    assert fields[2..] == more;
    if r.note == "" {
      assert more == rest;
    } else {
      RTTsSkip(r.note, rest, parse);
    }
  }

  lemma {:induction false} RTTsRouter<F>(r: Router, rest: seq<string>, parse: string -> Option<F>)
    requires rest != [] && rest[0] != "ms"
    ensures RTTs(RouterFields(r) + rest, parse) == RTTs(rest, parse)
  {
    hide RTTs;
    match r.ip
    case None =>
      assert RouterFields(r) + rest == [r.host] + rest;
      RTTsSkip(r.host, rest, parse);
    case Some(ip) =>
      var address := "(" + ip + ")";
      assert RouterFields(r) + rest == [r.host] + ([address] + rest);
      assert address[0] == '(' && "ms"[0] == 'm';
      RTTsSkip(r.host, [address] + rest, parse);
      RTTsSkip(address, rest, parse);
  }

  lemma {:induction false} RTTsAnswered<F(!new)>(
    r: Reply<F>, rest: seq<string>, last: Option<Router>, show: F -> string, parse: string -> Option<F>)
    requires Prints(show, parse) && ValidReply(r)
    ensures RTTs((if last == Some(r.router) then [] else RouterFields(r.router)) + (TimeFields(r, show) + rest), parse)
         == [r.time] + RTTs(rest, parse)
  {
    hide RTTs, ValidReply, RouterFields, TimeFields, Prints;
    var timed := TimeFields(r, show) + rest;
    RTTsTime(r, rest, show, parse);
    TimeFirst(r, rest, show, parse);
    RTTsRouter(r.router, timed, parse);
    assert [] + timed == timed;
  }

  /** Whoever is named in between, the times of all answers are collected in order. */
  lemma {:induction false} RTTsOfProbes<F(!new)>(
    probes: seq<Option<Reply<F>>>, last: Option<Router>, show: F -> string, parse: string -> Option<F>)
    requires Prints(show, parse) && ValidProbes(probes)
    ensures RTTs(ProbeFields(probes, last, show), parse) == Times(Answers(probes))
  {
    hide RTTs, ValidReply, RouterFields, TimeFields, Prints;
    if probes == [] {
      NoRTTs(parse);
    } else {
      var p := probes[0];
      assert p in probes && forall q | q in probes[1..] :: q in probes;
      match p
      case None =>
        RTTsOfProbes(probes[1..], last, show, parse);
        RTTsSkip("*", ProbeFields(probes[1..], last, show), parse);
      case Some(r) =>
        RTTsOfProbes(probes[1..], Some(r.router), show, parse);
        RTTsAnswered(r, ProbeFields(probes[1..], Some(r.router), show), last, show, parse);
        assert Times(Answers(probes)) == [r.time] + Times(Answers(probes[1..]));
    }
  }

  lemma NoRTTs<F>(parse: string -> Option<F>)
    ensures RTTs([], parse) == []
  {}

  lemma TimeFirst<F(!new)>(r: Reply<F>, rest: seq<string>, show: F -> string, parse: string -> Option<F>)
    requires Prints(show, parse)
    ensures var timed := TimeFields(r, show) + rest;
            timed != [] && timed[0] == show(r.time) && timed[0] != "ms" && !InParens(timed[0])
  {}

  lemma {:induction false} TrimParensNone(s: string)
    requires forall c | c in s :: !IsParen(c)
    ensures TrimParens(s + ")") == s && TrimParens("(" + s + ")") == s
  {
    assert ("(" + s + ")")[1..] == s + ")";
    if s == "" {
      assert (s + ")")[1..] == "";
    } else {
      assert s[0] in s && s[|s| - 1] in s;
      assert (s + ")")[..|s|] == s;
    }
  }

  /** What the parser makes of a hop: all times go to the first router, and a hop whose first probe was lost counts
      as silent. */
  function Understood<F>(h: Probed<F>): Hop<F> {
    if h.probes == [] || h.probes[0].None? then Hop(h.hop, "*", "*", [])
    else
      var first := h.probes[0].value.router;
      Hop(h.hop, first.host, first.Address(), Times(Answers(h.probes)))
  }

  lemma SilentHop<F(!new)>(h: Probed<F>, show: F -> string, parse: string -> Option<F>)
    requires ValidProbed(h) && h.probes[0].None?
    ensures HopOf(HopFields(h, show), parse) == Some(Hop(h.hop, "*", "*", []))
  {
    hide Itoa, Atoi, ValidProbes;
    AtoiOfItoa(h.hop);
    assert HopFields(h, show)[1] == "*";
  }

  /** A line that starts with a number and a router. */
  lemma HopOfRouter<F>(n: nat, r: Router, timed: seq<string>, parse: string -> Option<F>)
    requires n < 0x8000_0000_0000_0000 && ValidRouter(r) && timed != [] && !InParens(timed[0])
    ensures HopOf([Itoa(n)] + (RouterFields(r) + timed), parse) == Some(Hop(n, r.host, r.Address(), RTTs(timed, parse)))
  {
    hide Itoa, Atoi, RTTs, NoSpace, TrimParens;
    AtoiOfItoa(n);
    var fields := [Itoa(n)] + (RouterFields(r) + timed);
    match r.ip
    case Some(ip) =>
      TrimParensNone(ip);
      assert fields == [Itoa(n), r.host, "(" + ip + ")"] + timed;
      assert fields[3..] == timed;
    case None =>
      assert fields == [Itoa(n), r.host] + timed;
      assert fields[2..] == timed && fields[2] == timed[0];
  }

  lemma {:induction false} AnsweredHop<F(!new)>(h: Probed<F>, show: F -> string, parse: string -> Option<F>)
    requires ValidProbed(h) && Prints(show, parse) && h.probes[0].Some?
    ensures HopOf(HopFields(h, show), parse) == Some(Understood(h))
  {
    hide Itoa, Atoi, RTTs, Answers, Prints, TimeFields, Times, RouterFields, ValidRouter, HopOf, InParens;
    var r := h.probes[0].value;
    var rest := ProbeFields(h.probes[1..], Some(r.router), show);
    var timed := TimeFields(r, show) + rest;
    assert h.probes[0] in h.probes && ValidReply(r);
    RTTsOfProbes(h.probes, Some(r.router), show, parse);
    assert ProbeFields(h.probes, Some(r.router), show) == timed;
    TimeFirst(r, rest, show, parse);
    HopOfRouter(h.hop, r.router, timed, parse);
  }

  lemma {:induction false} HopUnderstood<F(!new)>(h: Probed<F>, show: F -> string, parse: string -> Option<F>)
    requires ValidProbed(h) && Prints(show, parse)
    ensures HopOf(HopFields(h, show), parse) == Some(Understood(h))
  {
    if h.probes[0].None? {
      SilentHop(h, show, parse);
    } else {
      AnsweredHop(h, show, parse);
    }
  }

  // ---- when the record is right ----------------------------------------------------------------

  ghost predicate Silent<F>(h: Probed<F>) { forall p | p in h.probes :: p.None? }

  /** The first probe was answered, and every other answer came from the same host and address. */
  ghost predicate OneRouter<F>(h: Probed<F>) {
    && h.probes != [] && h.probes[0].Some?
    && forall p | p in h.probes && p.Some? ::
         p.value.router.host == h.probes[0].value.router.host &&
             p.value.router.Address() == h.probes[0].value.router.Address()
  }

  /** Every answered probe is among the answers, and nothing else is. */
  lemma {:induction false} AnswersAre<F(!new)>(probes: seq<Option<Reply<F>>>)
    ensures forall a | a in Answers(probes) ::
              exists p :: p in probes && p.Some? &&
                  a == Answer(p.value.router.host, p.value.router.Address(), p.value.time)
    ensures forall p | p in probes && p.Some? ::
              Answer(p.value.router.host, p.value.router.Address(), p.value.time) in Answers(probes)
  {
    if probes != [] {
      AnswersAre(probes[1..]);
      assert probes == [probes[0]] + probes[1..];
    }
  }

  lemma SilentNoAnswers<F(!new)>(h: Probed<F>)
    ensures Silent(h) <==> Answers(h.probes) == []
  {
    AnswersAre(h.probes);
    if Answers(h.probes) != [] {
      assert Answers(h.probes)[0] in Answers(h.probes);
    }
  }

  /** All times belong to one host exactly when all answers came from it. */
  lemma ClaimsExactly<F(!new)>(h: Probed<F>)
    requires h.probes != [] && h.probes[0].Some?
    ensures Claims(Understood(h)) == Answers(h.probes) <==> OneRouter(h)
  {
    hide Answers;
    var first := h.probes[0].value.router;
    var answers, claims := Answers(h.probes), Claims(Understood(h));
    AnswersAre(h.probes);
    if OneRouter(h) {
      forall i | 0 <= i < |answers| ensures claims[i] == answers[i] {
        assert answers[i] in answers;
      }
    } else {
      var p :| p in h.probes && p.Some? &&
               !(p.value.router.host == first.host && p.value.router.Address() == first.Address());
      var i :| 0 <= i < |answers| && answers[i] == Answer(p.value.router.host, p.value.router.Address(), p.value.time);
      assert claims[i] != answers[i];
    }
  }

  /** The record is right exactly when the hop stayed silent, or its first probe was answered and every later
      answer came from the same host. */
  lemma {:induction false} UnderstoodExactly<F(!new)>(h: Probed<F>)
    requires h.probes != []
    ensures Right(Understood(h), h) <==> Silent(h) || OneRouter(h)
  {
    hide Answers, OneRouter;
    SilentNoAnswers(h);
    if h.probes[0].Some? {
      ClaimsExactly(h);
      assert h.probes[0] in h.probes;
    } else {
      assert !OneRouter(h) by { FirstLost(h); }
    }
  }

  lemma FirstLost<F>(h: Probed<F>)
    requires h.probes != [] && h.probes[0].None?
    ensures !OneRouter(h)
  {}

  /** Two routers at one hop: the time of the second is filed under the first. */
  lemma TwoRouters<F(!new)>(a: Router, b: Router, x: F, y: F)
    requires a.host != b.host
    ensures var h := Probed(3, [Some(Reply(a, x, "")), Some(Reply(b, y, ""))]);
            Understood(h).host == a.host && Understood(h).rtts == [x, y] && !Right(Understood(h), h)
  {
    var h := Probed(3, [Some(Reply(a, x, "")), Some(Reply(b, y, ""))]);
    var second := h.probes[1..];
    assert second == [h.probes[1]] && second[1..] == [];
    assert Answers(second) == [Answer(b.host, b.Address(), y)];
    assert Answers(h.probes) == [Answer(a.host, a.Address(), x), Answer(b.host, b.Address(), y)];
    assert Claims(Understood(h))[1].host == a.host;
  }

  // ---- lines and white space -------------------------------------------------------------------

  /** A space, a tab, a carriage return and the like, but no newline. */
  predicate Gap(g: string) { g != "" && AllSpace(g) && '\n' !in g }

  /** The fields, each behind its own gap. */
  function Spread(gaps: seq<string>, fields: seq<string>): string
    requires |gaps| == |fields|
  {
    if fields == [] then "" else gaps[0] + fields[0] + Spread(gaps[1..], fields[1..])
  }

  lemma {:induction false} WordLengthOf(word: string, rest: string)
    requires NoSpace(word) && (rest != "" ==> IsSpace(rest[0]))
    ensures WordLength(word + rest) == |word|
  {
    if word == "" {
      assert word + rest == rest;
    } else {
      assert (word + rest)[0] == word[0] && (word + rest)[1..] == word[1..] + rest && word[0] in word;
      WordLengthOf(word[1..], rest);
    }
  }

  lemma {:induction false} FieldsSkip(gap: string, s: string)
    requires AllSpace(gap)
    ensures Fields(gap + s) == Fields(s)
  {
    if gap == "" {
      assert gap + s == s;
    } else {
      assert (gap + s)[0] == gap[0] && (gap + s)[1..] == gap[1..] + s && gap[0] in gap;
      FieldsSkip(gap[1..], s);
    }
  }

  lemma {:induction false} FieldsWord(word: string, rest: string)
    requires Word(word) && (rest != "" ==> IsSpace(rest[0]))
    ensures Fields(word + rest) == [word] + Fields(rest)
  {
    WordLengthOf(word, rest);
    assert (word + rest)[0] == word[0] && word[0] in word;
    assert (word + rest)[..|word|] == word && (word + rest)[|word|..] == rest;
  }

  lemma {:induction false} FieldsOfSpread(gaps: seq<string>, fields: seq<string>)
    requires |gaps| == |fields| && (forall g | g in gaps :: Gap(g)) && (forall f | f in fields :: Word(f))
    ensures Fields(Spread(gaps, fields)) == fields
    ensures fields != [] ==> Spread(gaps, fields) != "" && IsSpace(Spread(gaps, fields)[0])
  {
    hide Fields, Word;
    if fields == [] {
      NoFields();
    } else {
      var rest := Spread(gaps[1..], fields[1..]);
      FieldsOfSpread(gaps[1..], fields[1..]);
      assert Gap(gaps[0]) && gaps[0][0] in gaps[0];
      assert gaps[0] + fields[0] + rest == gaps[0] + (fields[0] + rest);
      FieldsSkip(gaps[0], fields[0] + rest);
      FieldsWord(fields[0], rest);
    }
  }

  lemma {:induction false} FieldsOfSpace(s: string)
    requires AllSpace(s)
    ensures Fields(s) == []
  {
    FieldsSkip(s, "");
    assert s + "" == s;
    NoFields();
  }

  lemma {:induction false} FieldsBefore(s: string, post: string)
    requires AllSpace(post)
    ensures Fields(s + post) == Fields(s)
    decreases |s|
  {
    if s == "" {
      assert s + post == post;
      FieldsOfSpace(post);
      NoFields();
    } else if IsSpace(s[0]) {
      assert (s + post)[1..] == s[1..] + post;
      FieldsBefore(s[1..], post);
    } else {
      WordBefore(s, post);
      var n := WordLength(s);
      assert (s + post)[..n] == s[..n] && (s + post)[n..] == s[n..] + post;
      FieldsBefore(s[n..], post);
    }
  }

  lemma {:induction false} WordBefore(s: string, post: string)
    requires AllSpace(post)
    ensures WordLength(s + post) == WordLength(s)
  {
    if s == "" {
      assert s + post == post;
      assert post != "" ==> post[0] in post;
    } else {
      assert (s + post)[0] == s[0] && (s + post)[1..] == s[1..] + post;
      WordBefore(s[1..], post);
    }
  }

  lemma FieldsOfTrim(s: string)
    ensures Fields(Trim(s)) == Fields(s)
  {
    hide Fields, TrimLeft, TrimRight, AllSpace;
    var left := TrimLeft(s);
    var t := TrimRight(left);
    assert s == s[..|s| - |left|] + left && left == t + left[|t|..];
    FieldsSkip(s[..|s| - |left|], left);
    FieldsBefore(t, left[|t|..]);
  }

  /** The first field of a line is what the trimmed line starts with. */
  lemma FirstField(line: string)
    requires Fields(line) != []
    ensures Trim(line) != "" && Fields(line)[0] != "" && Trim(line)[0] == Fields(line)[0][0]
  {
    FieldsOfTrim(line);
    TrimIsTrimmed(line);
    NoFields();
  }

  lemma RouterWords(r: Router)
    requires ValidRouter(r)
    ensures forall f | f in RouterFields(r) :: Word(f)
  {}

  lemma TimeWords<F(!new)>(r: Reply<F>, show: F -> string, parse: string -> Option<F>)
    requires ValidReply(r) && Prints(show, parse)
    ensures forall f | f in TimeFields(r, show) :: Word(f)
  {}

  lemma {:induction false} ProbeFieldsWords<F(!new)>(
      probes: seq<Option<Reply<F>>>, last: Option<Router>, show: F -> string, parse: string -> Option<F>)
    requires Prints(show, parse) && ValidProbes(probes)
    ensures forall f | f in ProbeFields(probes, last, show) :: Word(f)
  {
    if probes != [] {
      hide Word, RouterFields, TimeFields, Prints, ValidRouter;
      assert probes[0] in probes && forall q | q in probes[1..] :: q in probes;
      match probes[0]
      case None =>
        ProbeFieldsWords(probes[1..], last, show, parse);
        StarIsWord();
      case Some(r) =>
        ProbeFieldsWords(probes[1..], Some(r.router), show, parse);
        RouterWords(r.router);
        TimeWords(r, show, parse);
    }
  }

  lemma StarIsWord()
    ensures Word("*")
  {}

  lemma {:induction false} HopFieldsWords<F(!new)>(h: Probed<F>, show: F -> string, parse: string -> Option<F>)
    requires ValidProbed(h) && Prints(show, parse)
    ensures forall f | f in HopFields(h, show) :: Word(f)
    ensures HopFields(h, show) != [] && IsDigit(HopFields(h, show)[0][0])
  {
    hide ProbeFields, ValidProbes;
    ProbeFieldsWords(h.probes, None, show, parse);
    assert Itoa(h.hop)[0] in Itoa(h.hop);
  }

  /** A line that holds the fields of a hop, with any gaps before them and any white space at its end. */
  ghost predicate LineOf<F(!new)>(line: string, h: Probed<F>, show: F -> string) {
    '\n' !in line && Fields(line) == HopFields(h, show)
  }

  /** Printing with gaps gives such a line. */
  lemma SpreadIsLine<F(!new)>(gaps: seq<string>, h: Probed<F>, show: F -> string, parse: string -> Option<F>)
    requires ValidProbed(h) && Prints(show, parse)
    requires |gaps| == |HopFields(h, show)| && forall g | g in gaps :: Gap(g)
    ensures LineOf(Spread(gaps, HopFields(h, show)), h, show)
  {
    hide Fields, HopFields;
    HopFieldsWords(h, show, parse);
    FieldsOfSpread(gaps, HopFields(h, show));
    SpreadNoNewline(gaps, HopFields(h, show));
  }

  lemma {:induction false} SpreadNoNewline(gaps: seq<string>, fields: seq<string>)
    requires |gaps| == |fields| && (forall g | g in gaps :: Gap(g)) && (forall f | f in fields :: Word(f))
    ensures '\n' !in Spread(gaps, fields)
  {
    if fields != [] {
      SpreadNoNewline(gaps[1..], fields[1..]);
      assert Gap(gaps[0]) && Word(fields[0]);
      assert IsSpace('\n');
    }
  }

  lemma LineUnderstood<F(!new)>(line: string, h: Probed<F>, show: F -> string, parse: string -> Option<F>)
    requires ValidProbed(h) && Prints(show, parse) && LineOf(line, h, show)
    ensures ParseLine(line, parse) == Some(Understood(h))
  {
    hide Fields, HopFields, HopOf, Understood;
    HopUnderstood(h, show, parse);
    HopFieldsWords(h, show, parse);
    FieldsOfTrim(line);
    FirstField(line);
    assert "traceroute to"[0] == 't';
  }

  // ---- whole outputs ---------------------------------------------------------------------------

  function Map<A, B>(f: A -> B, s: seq<A>): (r: seq<B>)
    ensures |r| == |s| && forall i | 0 <= i < |s| :: r[i] == f(s[i])
  {
    seq(|s|, i requires 0 <= i < |s| => f(s[i]))
  }

  function Readings<F>(hops: seq<Probed<F>>): seq<Hop<F>> { Map(h => Understood(h), hops) }

  /** A line of the output: of a hop, or anything else, such as the header or a warning. */
  datatype OutputLine<F> = HopLine(text: string, hop: Probed<F>) | Noise(text: string)

  /** What is no hop: the header, fewer than two fields, or a first field that is no number. */
  predicate IsNoise(text: string) {
    HasPrefix(Trim(text), "traceroute to") || |Fields(text)| < 2 || Atoi(Fields(text)[0]).None?
  }

  ghost predicate ValidLine<F(!new)>(line: OutputLine<F>, show: F -> string) {
    match line
    case HopLine(text, hop) => ValidProbed(hop) && LineOf(text, hop, show)
    case Noise(text) => '\n' !in text && IsNoise(text)
  }

  function Texts<F>(lines: seq<OutputLine<F>>): seq<string> { Map((l: OutputLine<F>) => l.text, lines) }

  /** The hops of an output, in order. */
  function HopsIn<F>(lines: seq<OutputLine<F>>): seq<Probed<F>> {
    if lines == [] then []
    else
      HopsIn(lines[..|lines| - 1]) +
      match lines[|lines| - 1] case HopLine(_, hop) => [hop] case Noise(_) => []
  }

  lemma NoiseIgnored<F>(text: string, parse: string -> Option<F>)
    requires IsNoise(text)
    ensures ParseLine(text, parse) == None
  {
    hide Fields, Trim;
    FieldsOfTrim(text);
  }

  lemma {:induction false} HopsOfLines<F(!new)>(
      lines: seq<OutputLine<F>>, show: F -> string, parse: string -> Option<F>)
    requires Prints(show, parse) && forall l | l in lines :: ValidLine(l, show)
    ensures Hops(Texts(lines), parse) == Readings(HopsIn(lines))
  {
    hide ParseLine, Understood, IsNoise, LineOf, ValidProbed, Prints;
    if lines != [] {
      var n := |lines| - 1;
      assert lines[n] in lines && forall l | l in lines[..n] :: l in lines;
      HopsOfLines(lines[..n], show, parse);
      assert Texts(lines)[..n] == Texts(lines[..n]) && Texts(lines)[n] == lines[n].text;
      match lines[n]
      case HopLine(text, hop) =>
        LineUnderstood(text, hop, show, parse);
        assert Readings(HopsIn(lines)) == Readings(HopsIn(lines[..n])) + [Understood(hop)];
      case Noise(text) =>
        NoiseIgnored(text, parse);
    }
  }

  lemma BlankIgnored<F>(parse: string -> Option<F>)
    ensures ParseLine("", parse) == None
  {
    TrimOfTrimmed("");
    NoFields();
  }

  /** A whole output, with any other lines between those of the hops, gives one record for each hop, in order; and each
      is right exactly when its hop stayed silent, or its first probe was answered and every later answer came
      from the same host. */
  lemma {:induction false} OutputRoundTrip<F(!new)>(
      lines: seq<OutputLine<F>>, show: F -> string, parse: string -> Option<F>)
    requires Prints(show, parse) && forall l | l in lines :: ValidLine(l, show)
    ensures var hops, records := HopsIn(lines), Hops(Split(Lines(Texts(lines)), '\n'), parse);
            && |records| == |hops|
            && forall i | 0 <= i < |hops| :: Right(records[i], hops[i]) <==> Silent(hops[i]) || OneRouter(hops[i])
    ensures Hops(Split(Lines(Texts(lines)), '\n'), parse) == Readings(HopsIn(lines))
  {
    hide Hops, Lines, Split, Right, Silent, OneRouter, Understood, Fields, HopFields, ValidProbes, IsNoise;
    HopsOfLines(lines, show, parse);
    forall text | text in Texts(lines) ensures '\n' !in text {
      var i :| 0 <= i < |lines| && Texts(lines)[i] == text;
      assert lines[i] in lines;
    }
    SplitOfLines(Texts(lines));
    LastLineIgnored(Texts(lines), parse);
    var hops := HopsIn(lines);
    HopsInProbed(lines, show);
    forall i | 0 <= i < |hops| ensures Right(Readings(hops)[i], hops[i]) <==> Silent(hops[i]) || OneRouter(hops[i]) {
      assert hops[i] in hops;
      UnderstoodExactly(hops[i]);
    }
  }

  lemma {:induction false} HopsInProbed<F(!new)>(lines: seq<OutputLine<F>>, show: F -> string)
    requires forall l | l in lines :: ValidLine(l, show)
    ensures forall h | h in HopsIn(lines) :: h.probes != []
  {
    hide LineOf, ValidProbes, IsNoise;
    if lines != [] {
      assert lines[|lines| - 1] in lines && forall l | l in lines[..|lines| - 1] :: l in lines;
      HopsInProbed(lines[..|lines| - 1], show);
    }
  }

  lemma {:induction false} LastLineIgnored<F>(lines: seq<string>, parse: string -> Option<F>)
    ensures Hops(lines + [""], parse) == Hops(lines, parse)
  {
    hide ParseLine;
    BlankIgnored(parse);
    assert (lines + [""])[..|lines|] == lines;
  }
}
