/** The regular expressions of common/metrics.go and hub/server.go, written out, and the predicates that stand for
    them in the model. */
module Patterns {
  import opened Text
  import opened Snmp
  import opened KeyFile

  /** Ranges of characters, and single ones. */
  datatype Class = Class(ranges: seq<(char, char)>, singles: string)

  predicate InClass(c: char, k: Class) { c in k.singles || exists r | r in k.ranges :: r.0 <= c <= r.1 }

  datatype Re =
    | One(k: Class)
    | Except(k: Class)
    | Cat(a: Re, b: Re)
    | Opt(a: Re)
    | UpTo(a: Re, n: nat)
    | Star(a: Re)
  {
    function Size(): nat
      decreases this
    {
      match this
      case One(_) => 1
      case Except(_) => 1
      case Cat(a, b) => 1 + a.Size() + b.Size()
      case Opt(a) => 1 + a.Size()
      case UpTo(a, n) => 1 + n + a.Size()
      case Star(a) => 1 + a.Size()
    }
  }

  /** The whole text matches. Repetitions take at least one character each time. */
  ghost predicate Matches(r: Re, s: string)
    decreases r.Size(), |s|
  {
    match r
    case One(k) => |s| == 1 && InClass(s[0], k)
    case Except(k) => |s| == 1 && !InClass(s[0], k)
    case Cat(a, b) => exists i | 0 <= i <= |s| :: Matches(a, s[..i]) && Matches(b, s[i..])
    case Opt(a) => s == "" || Matches(a, s)
    case UpTo(a, n) =>
      s == "" || (n > 0 && exists i | 0 < i <= |s| :: Matches(a, s[..i]) && Matches(UpTo(a, n - 1), s[i..]))
    case Star(a) => s == "" || exists i | 0 < i <= |s| :: Matches(a, s[..i]) && Matches(r, s[i..])
  }

  function Plus(a: Re): Re { Cat(a, Star(a)) }

  function Lit(c: char): Re { One(Class([], [c])) }

  function Alnum(others: string): Class { Class([('a', 'z'), ('A', 'Z'), ('0', '9')], others) }

  const DIGIT := One(Class([('0', '9')], ""))

  // ---- the patterns ----------------------------------------------------------------------------

  /** [a-zA-Z0-9]([a-zA-Z0-9\-]{0,61}[a-zA-Z0-9])? */
  const LABEL := Cat(One(Alnum("")), Opt(Cat(UpTo(One(Alnum("-")), 61), One(Alnum("")))))

  /** hostnameRegex: labels with points between them */
  const HOSTNAME := Cat(LABEL, Star(Cat(Lit('.'), LABEL)))

  /** ([0-9]+\.)*[0-9]+ */
  const NUMBERS := Cat(Star(Cat(Plus(DIGIT), Lit('.'))), Plus(DIGIT))

  /** oidRegex: ^\.?([0-9]+\.)*[0-9]+$ */
  const OID := Cat(Opt(Lit('.')), NUMBERS)

  /** communityRegex and agentIDRegex: ^[a-zA-Z0-9_\-]+$ */
  const COMMUNITY := Plus(One(Alnum("_-")))

  /** secNameRegex: ^[a-zA-Z0-9_\-\.@]+$ */
  const SEC_NAME := Plus(One(Alnum("_-.@")))

  /** contextNameRegex: ^[a-zA-Z0-9_\-\.]+$ */
  const CONTEXT_NAME := Plus(One(Alnum("_-.")))

  /** engineIDRegex: ^(0x)?[a-zA-Z0-9]+$ */
  const ENGINE_ID := Cat(Opt(Cat(Lit('0'), Lit('x'))), Plus(One(Alnum(""))))

  /** safePassphraseRegex: no white space, quotes, semicolon, bar, ampersand, angle bracket or backquote */
  const PASSPHRASE := Plus(Except(Class([], "\t\n\U{c}\r \"';|&<>`")))

  // ---- building and taking apart -----------------------------------------------------------------

  lemma CatOf(a: Re, b: Re, x: string, y: string)
    requires Matches(a, x) && Matches(b, y)
    ensures Matches(Cat(a, b), x + y)
  {
    assert (x + y)[..|x|] == x && (x + y)[|x|..] == y;
  }

  lemma CatParts(a: Re, b: Re, s: string) returns (x: string, y: string)
    requires Matches(Cat(a, b), s)
    ensures s == x + y && Matches(a, x) && Matches(b, y)
  {
    var i :| 0 <= i <= |s| && Matches(a, s[..i]) && Matches(b, s[i..]);
    x, y := s[..i], s[i..];
  }

  lemma StarOf(a: Re, x: string, y: string)
    requires x != "" && Matches(a, x) && Matches(Star(a), y)
    ensures Matches(Star(a), x + y)
  {
    assert (x + y)[..|x|] == x && (x + y)[|x|..] == y;
  }

  lemma StarParts(a: Re, s: string) returns (x: string, y: string)
    requires Matches(Star(a), s) && s != ""
    ensures s == x + y && x != "" && Matches(a, x) && Matches(Star(a), y)
  {
    var i :| 0 < i <= |s| && Matches(a, s[..i]) && Matches(Star(a), s[i..]);
    x, y := s[..i], s[i..];
  }

  lemma UpToOf(a: Re, n: nat, x: string, y: string)
    requires x != "" && Matches(a, x) && Matches(UpTo(a, n), y)
    ensures Matches(UpTo(a, n + 1), x + y)
  {
    assert (x + y)[..|x|] == x && (x + y)[|x|..] == y;
  }

  lemma UpToParts(a: Re, n: nat, s: string) returns (x: string, y: string)
    requires Matches(UpTo(a, n), s) && s != ""
    ensures n > 0 && s == x + y && x != "" && Matches(a, x) && Matches(UpTo(a, n - 1), y)
  {
    var i :| 0 < i <= |s| && Matches(a, s[..i]) && Matches(UpTo(a, n - 1), s[i..]);
    x, y := s[..i], s[i..];
  }

  lemma Nothing(a: Re, n: nat)
    ensures Matches(Star(a), "") && Matches(Opt(a), "") && Matches(UpTo(a, n), "")
  {}

  lemma OptIs(a: Re, s: string)
    ensures Matches(Opt(a), s) <==> s == "" || Matches(a, s)
  {}

  predicate IsSingle(r: Re) { r.One? || r.Except? }

  predicate Takes(r: Re, c: char)
    requires IsSingle(r)
  {
    if r.One? then InClass(c, r.k) else !InClass(c, r.k)
  }

  lemma SingleIs(r: Re, s: string)
    requires IsSingle(r)
    ensures Matches(r, s) <==> |s| == 1 && Takes(r, s[0])
  {}

  lemma LitIs(c: char, s: string)
    ensures Matches(Lit(c), s) <==> s == [c]
  {}

  // ---- repeated characters -----------------------------------------------------------------------

  ghost predicate AllTaken(r: Re, s: string)
    requires IsSingle(r)
  {
    forall c | c in s :: Takes(r, c)
  }

  lemma AllTakenHead(r: Re, s: string)
    requires IsSingle(r) && s != ""
    ensures AllTaken(r, s) <==> Takes(r, s[0]) && AllTaken(r, s[1..])
  {
    hide InClass, Takes;
    assert s == [s[0]] + s[1..];
  }

  lemma {:induction false} StarSingle(r: Re, s: string)
    requires IsSingle(r)
    ensures Matches(Star(r), s) <==> AllTaken(r, s)
    decreases |s|
  {
    hide Takes, Matches;
    Nothing(r, 0);
    if s != "" {
      hide AllTaken;
      AllTakenHead(r, s);
      StarSingle(r, s[1..]);
      SingleIs(r, [s[0]]);
      assert [s[0]] + s[1..] == s;
      if AllTaken(r, s) {
        StarOf(r, [s[0]], s[1..]);
      }
      if Matches(Star(r), s) {
        var x, y := StarParts(r, s);
        SingleIs(r, x);
        assert x == [s[0]] && y == s[1..];
      }
    }
  }

  lemma {:induction false} PlusSingle(r: Re, s: string)
    requires IsSingle(r)
    ensures Matches(Plus(r), s) <==> s != "" && AllTaken(r, s)
  {
    hide Takes, Matches, AllTaken;
    if s != "" && AllTaken(r, s) {
      AllTakenHead(r, s);
      SingleIs(r, [s[0]]);
      StarSingle(r, s[1..]);
      CatOf(r, Star(r), [s[0]], s[1..]);
      assert [s[0]] + s[1..] == s;
    }
    if Matches(Plus(r), s) {
      var x, y := CatParts(r, Star(r), s);
      SingleIs(r, x);
      StarSingle(r, y);
      assert s[0] == x[0] && s[1..] == y;
      AllTakenHead(r, s);
    }
  }

  lemma {:induction false} UpToSingle(r: Re, n: nat, s: string)
    requires IsSingle(r)
    ensures Matches(UpTo(r, n), s) <==> |s| <= n && AllTaken(r, s)
    decreases |s|
  {
    hide Takes, Matches;
    Nothing(r, n);
    if s != "" {
      hide AllTaken;
      AllTakenHead(r, s);
      SingleIs(r, [s[0]]);
      assert [s[0]] + s[1..] == s;
      if n > 0 {
        UpToSingle(r, n - 1, s[1..]);
      }
      if |s| <= n && AllTaken(r, s) {
        UpToOf(r, n - 1, [s[0]], s[1..]);
      }
      if Matches(UpTo(r, n), s) {
        var x, y := UpToParts(r, n, s);
        SingleIs(r, x);
        assert x == [s[0]] && y == s[1..];
      }
    }
  }

  // ---- words -------------------------------------------------------------------------------------

  lemma AlnumIs(c: char, others: string)
    ensures InClass(c, Alnum(others)) <==> IsAlnum(c) || c in others
  {
    var r := Alnum(others).ranges;
    assert r[0] in r && r[1] in r && r[2] in r;
  }

  lemma DigitIs(c: char)
    ensures InClass(c, DIGIT.k) <==> IsDigit(c)
  {
    assert DIGIT.k.ranges[0] in DIGIT.k.ranges;
  }

  lemma {:induction false} WordIs(others: string, s: string)
    ensures Matches(Plus(One(Alnum(others))), s) <==> Word(s, others)
  {
    hide Matches, InClass;
    PlusSingle(One(Alnum(others)), s);
    forall c ensures Takes(One(Alnum(others)), c) <==> IsAlnum(c) || c in others { AlnumIs(c, others); }
  }

  /** Communities, agent ids, user names and context names. */
  lemma {:induction false} WordsExactly(s: string)
    ensures Matches(COMMUNITY, s) <==> Word(s, "_-")
    ensures Matches(COMMUNITY, s) <==> ValidAgentID(s)
    ensures Matches(SEC_NAME, s) <==> Word(s, "_-.@")
    ensures Matches(CONTEXT_NAME, s) <==> Word(s, "_-.")
  {
    hide Matches;
    WordIs("_-", s);
    WordIs("_-.@", s);
    WordIs("_-.", s);
  }

  lemma {:induction false} EngineExactly(s: string)
    ensures Matches(ENGINE_ID, s) <==> Word(s, "")
  {
    hide Matches;
    var zero := Cat(Lit('0'), Lit('x'));
    if Word(s, "") {
      WordIs("", s);
      Nothing(zero, 0);
      CatOf(Opt(zero), Plus(One(Alnum(""))), "", s);
      assert "" + s == s;
    }
    if Matches(ENGINE_ID, s) {
      var x, y := CatParts(Opt(zero), Plus(One(Alnum(""))), s);
      WordIs("", y);
      OptIs(zero, x);
      if x != "" {
        var a, b := CatParts(Lit('0'), Lit('x'), x);
        LitIs('0', a);
        LitIs('x', b);
      }
    }
  }

  lemma {:induction false} PassphraseExactly(s: string)
    ensures Matches(PASSPHRASE, s) <==> SafePassphrase(s)
  {
    hide Matches;
    PlusSingle(PASSPHRASE.a, s);
    assert forall c :: Takes(PASSPHRASE.a, c) <==> c !in "\t\n\r \"';|&<>`" && c != 12 as char;
  }

  // ---- OIDs --------------------------------------------------------------------------------------

  lemma {:induction false} NumberIs(s: string)
    ensures Matches(Plus(DIGIT), s) <==> s != "" && AllDigits(s)
  {
    hide Matches, InClass;
    PlusSingle(DIGIT, s);
    forall c ensures Takes(DIGIT, c) <==> IsDigit(c) { DigitIs(c); }
  }

  lemma DottedFirst(a: string, rest: string)
    requires '.' !in a
    ensures DottedNumbers(a + ['.'] + rest) <==> a != "" && AllDigits(a) && DottedNumbers(rest)
  {
    hide AllDigits, Split;
    var parts := Split(a + ['.'] + rest, '.');
    SplitAtFirst(a, '.', rest);
    assert parts == [a] + Split(rest, '.') && parts[0] == a;
    if DottedNumbers(a + ['.'] + rest) {
      assert a in parts;
      forall part | part in Split(rest, '.') ensures part != "" && AllDigits(part) {
        assert part in parts;
      }
    }
  }

  lemma DottedOne(a: string)
    requires '.' !in a
    ensures DottedNumbers(a) <==> a != "" && AllDigits(a)
  {
    hide AllDigits, Split;
    SplitNone(a, '.');
    assert [a][0] in [a];
  }

  lemma {:induction false} NumbersOf(s: string)
    requires DottedNumbers(s)
    ensures Matches(NUMBERS, s)
    decreases |s|
  {
    hide Matches, DottedNumbers;
    var group := Cat(Plus(DIGIT), Lit('.'));
    if '.' in s {
      var parts := Cut(s, '.').value;
      var a, rest := parts.0, parts.1;
      DottedFirst(a, rest);
      NumbersOf(rest);
      NumberIs(a);
      LitIs('.', ".");
      CatOf(Plus(DIGIT), Lit('.'), a, ".");
      var x, y := CatParts(Star(group), Plus(DIGIT), rest);
      StarOf(group, a + ".", x);
      CatOf(Star(group), Plus(DIGIT), a + "." + x, y);
      assert s == (a + "." + x) + y;
    } else {
      DottedOne(s);
      NumberIs(s);
      Nothing(group, 0);
      CatOf(Star(group), Plus(DIGIT), "", s);
      assert "" + s == s;
    }
  }

  lemma {:induction false} NumbersGive(x: string, y: string)
    requires Matches(Star(Cat(Plus(DIGIT), Lit('.'))), x) && Matches(Plus(DIGIT), y)
    ensures DottedNumbers(x + y)
    decreases |x|
  {
    hide Matches, DottedNumbers;
    NumberIs(y);
    NoPoint(y);
    if x == "" {
      DottedOne(y);
      assert x + y == y;
    } else {
      var g, more := StarParts(Cat(Plus(DIGIT), Lit('.')), x);
      var a, point := CatParts(Plus(DIGIT), Lit('.'), g);
      NumberIs(a);
      NoPoint(a);
      LitIs('.', point);
      NumbersGive(more, y);
      DottedFirst(a, more + y);
      assert x + y == a + ['.'] + (more + y);
    }
  }

  lemma NoPoint(s: string)
    ensures AllDigits(s) ==> '.' !in s
  {}

  lemma {:induction false} NumbersExactly(s: string)
    ensures Matches(NUMBERS, s) <==> DottedNumbers(s)
  {
    hide Matches, DottedNumbers;
    if DottedNumbers(s) {
      NumbersOf(s);
    }
    if Matches(NUMBERS, s) {
      var x, y := CatParts(Star(Cat(Plus(DIGIT), Lit('.'))), Plus(DIGIT), s);
      NumbersGive(x, y);
    }
  }

  lemma PointFirst(s: string)
    requires s != "" && s[0] == '.'
    ensures !DottedNumbers(s)
  {
    hide DottedNumbers;
    DottedFirst("", s[1..]);
    assert s == "" + ['.'] + s[1..];
  }

  lemma {:induction false} OIDExactly(s: string)
    ensures Matches(OID, s) <==> IsOID(s)
  {
    hide Matches, DottedNumbers;
    NumbersExactly(s);
    Nothing(Lit('.'), 0);
    if s != "" && s[0] == '.' {
      PointFirst(s);
      NumbersExactly(s[1..]);
      LitIs('.', ".");
      OptIs(Lit('.'), ".");
      if IsOID(s) {
        CatOf(Opt(Lit('.')), NUMBERS, ".", s[1..]);
        assert "." + s[1..] == s;
      }
    } else if IsOID(s) {
      CatOf(Opt(Lit('.')), NUMBERS, "", s);
      assert "" + s == s;
    }
    if Matches(OID, s) {
      var x, y := CatParts(Opt(Lit('.')), NUMBERS, s);
      OptIs(Lit('.'), x);
      LitIs('.', x);
      if x == "" {
        assert y == s;
      } else {
        assert s[0] == '.' && y == s[1..];
      }
    }
  }

  // ---- host names --------------------------------------------------------------------------------

  ghost predicate Inner(s: string) { |s| <= 61 && forall c | c in s :: IsAlnum(c) || c == '-' }

  lemma {:induction false} InnerIs(s: string)
    ensures Matches(UpTo(One(Alnum("-")), 61), s) <==> Inner(s)
  {
    hide Matches, InClass;
    UpToSingle(One(Alnum("-")), 61, s);
    forall c ensures Takes(One(Alnum("-")), c) <==> IsAlnum(c) || c == '-' { AlnumIs(c, "-"); }
  }

  lemma AlnumOne(s: string)
    ensures Matches(One(Alnum("")), s) <==> |s| == 1 && IsAlnum(s[0])
  {
    hide Matches;
    SingleIs(One(Alnum("")), s);
    if |s| == 1 {
      AlnumIs(s[0], "");
    }
  }

  lemma {:induction false} LabelOf(s: string)
    requires Label(s)
    ensures Matches(LABEL, s)
  {
    hide Matches;
    var tail := Cat(UpTo(One(Alnum("-")), 61), One(Alnum("")));
    AlnumOne([s[0]]);
    Nothing(tail, 0);
    if |s| == 1 {
      CatOf(One(Alnum("")), Opt(tail), [s[0]], "");
      assert s == [s[0]] + "";
    } else {
      var n := |s| - 1;
      var inner := s[1..n];
      assert forall c | c in inner :: c in s;
      InnerIs(inner);
      AlnumOne([s[n]]);
      CatOf(UpTo(One(Alnum("-")), 61), One(Alnum("")), inner, [s[n]]);
      OptIs(tail, inner + [s[n]]);
      CatOf(One(Alnum("")), Opt(tail), [s[0]], inner + [s[n]]);
      assert s == [s[0]] + (inner + [s[n]]);
    }
  }

  lemma {:induction false} LabelExactly(s: string)
    ensures Matches(LABEL, s) <==> Label(s)
  {
    hide Matches;
    if Label(s) {
      LabelOf(s);
    }
    if Matches(LABEL, s) {
      var tail := Cat(UpTo(One(Alnum("-")), 61), One(Alnum("")));
      var x, y := CatParts(One(Alnum("")), Opt(tail), s);
      AlnumOne(x);
      OptIs(tail, y);
      if y != "" {
        var inner, last := CatParts(UpTo(One(Alnum("-")), 61), One(Alnum("")), y);
        InnerIs(inner);
        AlnumOne(last);
        assert s == x + inner + last;
      }
    }
  }

  lemma LabelsFirst(a: string, rest: string)
    requires '.' !in a
    ensures HostName(a + ['.'] + rest) <==> Label(a) && HostName(rest)
  {
    hide Label, Split;
    SplitAtFirst(a, '.', rest);
    assert forall part :: part in [a] + Split(rest, '.') <==> part == a || part in Split(rest, '.');
  }

  lemma LabelsOne(a: string)
    requires '.' !in a
    ensures HostName(a) <==> Label(a)
  {
    hide Label, Split;
    SplitNone(a, '.');
    assert [a][0] in [a];
  }

  lemma LabelNoPoint(s: string)
    requires Label(s)
    ensures '.' !in s && s != ""
  {}

  lemma {:induction false} HostOfLabels(s: string)
    requires HostName(s)
    ensures Matches(HOSTNAME, s)
    decreases |s|
  {
    hide Matches, HostName, Label;
    var more := Cat(Lit('.'), LABEL);
    if '.' in s {
      var parts := Cut(s, '.').value;
      var a, rest := parts.0, parts.1;
      LabelsFirst(a, rest);
      LabelExactly(a);
      HostOfLabels(rest);
      var l, t := CatParts(LABEL, Star(more), rest);
      LitIs('.', ".");
      CatOf(Lit('.'), LABEL, ".", l);
      StarOf(more, "." + l, t);
      CatOf(LABEL, Star(more), a, "." + l + t);
      assert s == a + ("." + l + t);
    } else {
      LabelsOne(s);
      LabelExactly(s);
      Nothing(more, 0);
      CatOf(LABEL, Star(more), s, "");
      assert s + "" == s;
    }
  }

  lemma {:induction false} HostGives(a: string, t: string)
    requires Matches(LABEL, a) && Matches(Star(Cat(Lit('.'), LABEL)), t)
    ensures HostName(a + t)
    decreases |t|
  {
    hide Matches, HostName;
    LabelExactly(a);
    LabelNoPoint(a);
    if t == "" {
      LabelsOne(a);
      assert a + t == a;
    } else {
      var g, rest := StarParts(Cat(Lit('.'), LABEL), t);
      var point, l := CatParts(Lit('.'), LABEL, g);
      LitIs('.', point);
      HostGives(l, rest);
      LabelsFirst(a, l + rest);
      assert a + t == a + ['.'] + (l + rest);
    }
  }

  lemma {:induction false} HostNameExactly(s: string)
    ensures Matches(HOSTNAME, s) <==> HostName(s)
  {
    hide Matches, HostName;
    if HostName(s) {
      HostOfLabels(s);
    }
    if Matches(HOSTNAME, s) {
      var a, t := CatParts(LABEL, Star(Cat(Lit('.'), LABEL)), s);
      HostGives(a, t);
    }
  }
}
