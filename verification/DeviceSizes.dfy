/** Disk sizes in megabytes (agent/vmware_hardware.go): from the capacity fields, or from a summary such as
    "40,960 KB". A float64 is modelled as a real number. */
module DeviceSizes {
  import opened Text

  /** math.Round on numbers that are not negative: to the nearest integer, halves up. */
  function Round(x: real): int
    requires x >= 0.0
  {
    (x + 0.5).Floor
  }

  // ---- the three regular expressions -----------------------------------------------------------

  /** A number with commas in it: [\d,] */
  predicate InNumber(c: char) { IsDigit(c) || c == ',' }

  /** \s */
  predicate IsGap(c: char) { c in "\t\n\r " || c == 12 as char }

  predicate IsDecimal(c: char) { IsDigit(c) }

  /** One letter matched without regard to case; the Kelvin sign folds to k. */
  predicate UnitMatches(c: char, unit: char) {
    UpperChar(c) == unit || (unit == 'K' && c == '\U{212A}')
  }

  /** How many characters at the front of s satisfy p. */
  function Span(s: string, p: char -> bool): (n: nat)
    ensures n <= |s| && (forall i | 0 <= i < n :: p(s[i])) && (n < |s| ==> !p(s[n]))
  {
    if s != "" && p(s[0]) then 1 + Span(s[1..], p) else 0
  }

  function WithoutCommas(s: string): (t: string)
    requires forall c | c in s :: InNumber(c)
    ensures AllDigits(t)
  {
    if s == "" then ""
    else
      var rest := WithoutCommas(s[1..]);
      assert InNumber(s[0]);
      if s[0] == ',' then rest else [s[0]] + rest
  }

  /** The captured group without its commas, as digits before and after the point. */
  datatype Amount = Amount(whole: string, fraction: string) {
    ghost predicate Valid() { AllDigits(whole) && AllDigits(fraction) }

    /** strconv.ParseFloat, whose result is 0 when there are no digits at all */
    function Real(): (x: real)
      requires Valid()
      ensures x >= 0.0
    {
      DigitsValue(whole) as real + DigitsValue(fraction) as real / Pow10(|fraction|) as real
    }

    /** strconv.ParseInt, whose result is the largest int64 when the number does not fit */
    function Int64(): int
      requires Valid()
    {
      if DigitsValue(whole) < 0x8000_0000_0000_0000 then DigitsValue(whole) else 0x7FFF_FFFF_FFFF_FFFF
    }
  }

  function Pow10(k: nat): (r: nat)
    ensures r >= 1
  {
    if k == 0 then 1 else 10 * Pow10(k - 1)
  }

  /** White space and the unit, the rest of the pattern after the number. */
  predicate UnitFollows(s: string, unit: char) {
    var gap := Span(s, IsGap);
    gap + 1 < |s| && UnitMatches(s[gap], unit) && s[gap + 1] in "bB"
  }

  /** The digits of a fraction at the front of s. Only the pattern for "GB" allows for one. */
  function Fraction(s: string, unit: char): (digits: string)
    ensures AllDigits(digits)
    ensures digits != "" ==> 1 + |digits| <= |s|
  {
    if unit == 'G' && s != "" && s[0] == '.' then
      var n := Span(s[1..], IsDecimal);
      assert forall c | c in s[1..][..n] :: IsDecimal(c);
      s[1..][..n]
    else ""
  }

  /** A match that starts with the first character of s. No shorter run can match where the longest does not,
      since the unit never starts with a digit, a comma or a point. */
  function MatchAt(s: string, unit: char): (r: Option<Amount>)
    ensures r.Some? ==> r.value.Valid()
  {
    var n := Span(s, InNumber);
    var fraction := Fraction(s[n..], unit);
    var rest := if fraction == "" then s[n..] else s[n..][1 + |fraction|..];
    if n > 0 && UnitFollows(rest, unit) then Some(Amount(WithoutCommas(s[..n]), fraction)) else None
  }

  /** The leftmost match. */
  function Find(s: string, unit: char): (r: Option<Amount>)
    ensures r.Some? ==> r.value.Valid()
  {
    if MatchAt(s, unit).Some? then MatchAt(s, unit)
    else if s == "" then None
    else Find(s[1..], unit)
  }

  function ParseSizeMB(summary: string): int {
    match Find(summary, 'K')
    case Some(kb) => Round(kb.Real() / 1024.0)
    case None =>
      match Find(summary, 'M')
      case Some(mb) => mb.Int64()
      case None =>
        match Find(summary, 'G')
        case Some(gb) => Round(gb.Real() * 1024.0)
        case None => 0
  }

  /** The size of a disk with these capacity fields, where present, and this summary. */
  function SizeMB(kb: Option<real>, bytes: Option<real>, summary: string): int {
    if kb.Some? && kb.value > 0.0 then Round(kb.value / 1024.0)
    else if bytes.Some? && bytes.value > 0.0 then Round(bytes.value / (1024.0 * 1024.0))
    else ParseSizeMB(summary)
  }

  // ---- printed numbers -------------------------------------------------------------------------

  /** Digits in groups of three, as in 1,048,576. */
  function Grouped(n: nat): string {
    if n < 1000 then Itoa(n)
    else Grouped(n / 1000) + "," + LastThree(n)
  }

  lemma {:induction false} WithoutCommasAppend(s: string, t: string)
    requires forall c | c in s + t :: InNumber(c)
    ensures WithoutCommas(s + t) == WithoutCommas(s) + WithoutCommas(t)
  {
    assert forall c | c in s :: c in s + t;
    assert forall c | c in t :: c in s + t;
    if s == "" {
      assert s + t == t;
    } else {
      assert (s + t)[0] == s[0] && (s + t)[1..] == s[1..] + t;
      WithoutCommasAppend(s[1..], t);
    }
  }

  lemma {:induction false} NoCommas(s: string)
    requires AllDigits(s)
    ensures WithoutCommas(s) == s
  {
    if s != "" {
      assert s[0] in s;
      NoCommas(s[1..]);
    }
  }

  lemma DigitsValueAppend(s: string, c: char)
    requires AllDigits(s) && IsDigit(c)
    ensures DigitsValue(s + [c]) == DigitsValue(s) * 10 + (c as int - '0' as int)
  {
    assert (s + [c])[..|s|] == s;
  }

  function Hundreds(n: nat): nat { n % 1000 / 100 }

  function Tens(n: nat): nat { n % 100 / 10 }

  lemma DropDigit(n: nat)
    ensures n == n / 10 * 10 + n % 10
  {}

  lemma HundredsOf(n: nat)
    ensures Hundreds(n) < 10 && n / 1000 * 10 + Hundreds(n) == n / 100
  {
    var q, r := n / 1000, n % 1000;
    assert n == q * 1000 + r;
    assert n == (q * 10 + r / 100) * 100 + r % 100;
  }

  lemma TensOf(n: nat)
    ensures Tens(n) < 10 && n / 100 * 10 + Tens(n) == n / 10
  {
    var q, r := n / 100, n % 100;
    assert n == q * 100 + r;
    assert n == (q * 10 + r / 10) * 10 + r % 10;
  }

  /** The last three digits of a number. */
  function LastThree(n: nat): (s: string)
    ensures |s| == 3 && AllDigits(s)
  {
    HundredsOf(n);
    TensOf(n);
    [DigitChar(Hundreds(n)), DigitChar(Tens(n)), DigitChar(n % 10)]
  }

  lemma ThreeDigits(s: string, n: nat)
    requires AllDigits(s) && DigitsValue(s) == n / 1000
    ensures DigitsValue(s + LastThree(n)) == n
  {
    hide DigitsValue, Hundreds, Tens, IsDigit;
    HundredsOf(n);
    TensOf(n);
    DropDigit(n);
    var a, b, c := DigitChar(Hundreds(n)), DigitChar(Tens(n)), DigitChar(n % 10);
    DigitsValueAppend(s, a);
    DigitsValueAppend(s + [a], b);
    DigitsValueAppend(s + [a] + [b], c);
    assert s + [a] + [b] + [c] == s + LastThree(n);
  }

  /** Dropping the commas from a grouped number leaves its value. */
  lemma {:induction false} GroupedValue(n: nat)
    ensures Grouped(n) != "" && forall c | c in Grouped(n) :: InNumber(c)
    ensures DigitsValue(WithoutCommas(Grouped(n))) == n
  {
    if n < 1000 {
      NoCommas(Itoa(n));
      DigitsValueOfItoa(n);
    } else {
      GroupedValue(n / 1000);
      NextGroup(Grouped(n / 1000), n);
    }
  }

  lemma NextGroup(front: string, n: nat)
    requires forall c | c in front :: InNumber(c)
    requires DigitsValue(WithoutCommas(front)) == n / 1000
    ensures var s := front + "," + LastThree(n);
            (forall c | c in s :: InNumber(c)) && DigitsValue(WithoutCommas(s)) == n
  {
    hide DigitsValue, LastThree;
    var three := LastThree(n);
    assert front + "," + three == front + ("," + three);
    CommaFirst(three);
    WithoutCommasAppend(front, "," + three);
    ThreeDigits(WithoutCommas(front), n);
  }

  lemma CommaFirst(digits: string)
    requires AllDigits(digits)
    ensures (forall c | c in "," + digits :: InNumber(c)) && WithoutCommas("," + digits) == digits
  {
    assert ("," + digits)[1..] == digits;
    NoCommas(digits);
  }

  // ---- finding a printed number ----------------------------------------------------------------

  lemma {:induction false} SpanOf(a: string, b: string, p: char -> bool)
    requires (forall c | c in a :: p(c)) && (b != "" ==> !p(b[0]))
    ensures Span(a + b, p) == |a|
  {
    if a == "" {
      assert a + b == b;
    } else {
      assert (a + b)[0] == a[0] && (a + b)[1..] == a[1..] + b;
      SpanOf(a[1..], b, p);
    }
  }

  lemma {:induction false} SpanWithin(u: string, t: string, p: char -> bool)
    requires Span(u, p) < |u|
    ensures Span(u + t, p) == Span(u, p)
  {
    assert (u + t)[0] == u[0] && (u + t)[1..] == u[1..] + t;
    if p(u[0]) {
      SpanWithin(u[1..], t, p);
    }
  }

  /** A number that follows this text does not continue one in it. */
  predicate Separates(s: string) { s == "" || (!InNumber(s[|s| - 1]) && s[|s| - 1] != '.') }

  lemma FractionWithin(v: string, t: string, wanted: char)
    requires v != "" && Separates(v)
    ensures Fraction(v + t, wanted) == Fraction(v, wanted)
    ensures Fraction(v, wanted) != "" ==> 1 + |Fraction(v, wanted)| < |v| && v[0] == '.'
  {
    if wanted == 'G' && v[0] == '.' {
      var digits := v[1..];
      assert (v + t)[1..] == digits + t && !IsDecimal(digits[|digits| - 1]);
      SpanWithin(digits, t, IsDecimal);
    }
  }

  lemma UnitWithin(r: string, t: string, wanted: char)
    requires r != "" && t != "" && IsDigit(t[0]) && wanted in "KMG"
    ensures UnitFollows(r + t, wanted) == UnitFollows(r, wanted)
  {
    if Span(r, IsGap) < |r| {
      SpanWithin(r, t, IsGap);
    } else {
      SpanOf(r, t, IsGap);
    }
  }

  /** Whether a match starts here does not depend on a number further on. */
  lemma {:induction false} MatchWithin(u: string, t: string, wanted: char)
    requires u != "" && Separates(u) && t != "" && IsDigit(t[0]) && wanted in "KMG"
    ensures MatchAt(u + t, wanted) == MatchAt(u, wanted)
  {
    hide Span, Fraction, UnitFollows, WithoutCommas, InNumber;
    var n := Span(u, InNumber);
    assert n < |u| by { LastStops(u); }
    SpanWithin(u, t, InNumber);
    var v := u[n..];
    assert (u + t)[n..] == v + t && (u + t)[..n] == u[..n];
    assert Separates(v) by { assert v[|v| - 1] == u[|u| - 1]; }
    FractionWithin(v, t, wanted);
    var k := |Fraction(v, wanted)|;
    var rest := if k == 0 then v else v[1 + k..];
    assert k > 0 ==> (v + t)[1 + k..] == rest + t;
    UnitWithin(rest, t, wanted);
  }

  lemma LastStops(u: string)
    requires u != "" && Separates(u)
    ensures Span(u, InNumber) < |u|
  {}

  lemma SeparatesTail(s: string)
    requires s != "" && Separates(s)
    ensures Separates(s[1..])
  {}

  /** What is found in a text before a number is found in the whole, and otherwise the search goes on there. */
  lemma {:induction false} FindBefore(pre: string, s: string, wanted: char)
    requires Separates(pre) && s != "" && IsDigit(s[0]) && wanted in "KMG"
    ensures Find(pre + s, wanted) == if Find(pre, wanted).Some? then Find(pre, wanted) else Find(s, wanted)
  {
    hide MatchAt, Find, Separates, IsDigit;
    if pre == "" {
      assert pre + s == s;
      NothingInNothing(wanted);
    } else {
      MatchWithin(pre, s, wanted);
      FindFrom(pre, wanted);
      FindFrom(pre + s, wanted);
      assert (pre + s)[1..] == pre[1..] + s;
      SeparatesTail(pre);
      FindBefore(pre[1..], s, wanted);
    }
  }

  lemma FindFrom(s: string, unit: char)
    requires s != ""
    ensures Find(s, unit) == if MatchAt(s, unit).Some? then MatchAt(s, unit) else Find(s[1..], unit)
  {}

  lemma {:induction false} FindSkips(pre: string, s: string, unit: char)
    requires forall c | c in pre :: !InNumber(c)
    ensures Find(pre + s, unit) == Find(s, unit)
  {
    if pre == "" {
      assert pre + s == s;
    } else {
      assert (pre + s)[0] == pre[0] && (pre + s)[1..] == pre[1..] + s;
      assert !InNumber(pre[0]) by { assert pre[0] in pre; }
      NoMatch(pre + s, unit);
      FindSkips(pre[1..], s, unit);
    }
  }

  lemma NoMatch(s: string, unit: char)
    requires s != "" && !InNumber(s[0])
    ensures MatchAt(s, unit).None?
  {}

  /** A unit, its letters in either case; the Kelvin sign is a K as well. */
  predicate IsUnit(unit: string) { |unit| == 2 && unit[0] in "KkMmGg\U{212A}" && unit[1] in "Bb" }

  function Letter(unit: string): char
    requires IsUnit(unit)
  {
    if unit[0] in "Kk\U{212A}" then 'K' else if unit[0] in "Mm" then 'M' else 'G'
  }

  /** The text after a number: white space, the unit and anything else. */
  ghost predicate Tail(s: string, gap: string, unit: string, rest: string) {
    && s == gap + unit + rest
    && (forall c | c in gap :: c in "\t\n\U{c}\r ")
    && IsUnit(unit)
  }

  lemma TailStart(s: string, gap: string, unit: string, rest: string, wanted: char)
    requires Tail(s, gap, unit, rest) && wanted in "KMG"
    ensures s != "" && s[0] != '.' && !IsDecimal(s[0]) && !InNumber(s[0])
    ensures UnitFollows(s, wanted) <==> wanted == Letter(unit)
  {
    hide Span;
    assert s == gap + (unit + rest);
    SpanOf(gap, unit + rest, IsGap);
    assert s[|gap|] == unit[0] && s[|gap| + 1] == unit[1];
  }

  lemma TailSkips(s: string, gap: string, unit: string, rest: string, wanted: char)
    requires Tail(s, gap, unit, rest)
    ensures Find(s, wanted) == Find(rest, wanted)
  {
    FindSkips(gap + unit, rest, wanted);
  }

  lemma {:induction false} MatchNumber(number: string, s: string, gap: string, unit: string, rest: string, wanted: char)
    requires number != "" && (forall c | c in number :: InNumber(c))
    requires Tail(s, gap, unit, rest) && wanted in "KMG"
    ensures MatchAt(number + s, wanted) ==
            if wanted == Letter(unit) then Some(Amount(WithoutCommas(number), "")) else None
  {
    hide WithoutCommas, Span, UnitFollows, Tail, InNumber;
    TailStart(s, gap, unit, rest, wanted);
    SpanOf(number, s, InNumber);
    assert (number + s)[|number|..] == s && (number + s)[..|number|] == number;
  }

  /** A decimal point after the number stops the match, except before "GB". */
  lemma MatchFraction(number: string, f: string, s: string, gap: string, rest: string, wanted: char)
    requires number != "" && (forall c | c in number :: InNumber(c))
    requires f != "" && AllDigits(f) && Tail(s, gap, "GB", rest) && wanted in "KMG"
    ensures MatchAt(number + ("." + (f + s)), wanted) ==
            if wanted == 'G' then Some(Amount(WithoutCommas(number), f)) else None
  {
    hide WithoutCommas, Span, UnitFollows, Tail, Fraction;
    TailStart(s, gap, "GB", rest, wanted);
    var u := "." + (f + s);
    SpanOf(number, u, InNumber);
    assert (number + u)[|number|..] == u && (number + u)[..|number|] == number;
    FractionRead(f, s, wanted);
    PointStops(f + s, wanted);
    assert u[1 + |f|..] == s;
  }

  lemma FractionRead(f: string, s: string, wanted: char)
    requires AllDigits(f) && s != "" && !IsDecimal(s[0])
    ensures Fraction("." + (f + s), wanted) == if wanted == 'G' then f else ""
  {
    assert ("." + (f + s))[1..] == f + s;
    SpanOf(f, s, IsDecimal);
  }

  lemma PointStops(s: string, wanted: char)
    requires wanted in "KMG"
    ensures !UnitFollows("." + s, wanted)
  {
    SpanOf("", "." + s, IsGap);
    assert "" + ("." + s) == "." + s;
  }

  /** A number with its unit is found by the search for this unit; the searches for others pass over it. */
  lemma {:induction false} FindNumber(number: string, s: string, gap: string, unit: string, rest: string, wanted: char)
    requires forall c | c in number :: InNumber(c)
    requires Tail(s, gap, unit, rest) && wanted in "KMG" && wanted != Letter(unit)
    ensures Find(number + s, wanted) == Find(rest, wanted)
  {
    hide MatchAt, Tail;
    if number == "" {
      assert number + s == s;
      TailSkips(s, gap, unit, rest, wanted);
    } else {
      MatchNumber(number, s, gap, unit, rest, wanted);
      assert (number + s)[1..] == number[1..] + s;
      FindNumber(number[1..], s, gap, unit, rest, wanted);
    }
  }

  lemma NothingInNothing(unit: char)
    ensures Find("", unit).None?
  {}

  lemma FoundAtOnce(s: string, unit: char)
    requires MatchAt(s, unit).Some?
    ensures Find(s, unit) == MatchAt(s, unit)
  {}

  /** What is found in the text before, else the printed number if its unit is wanted, else what is found behind. */
  function Expected(pre: string, here: Amount, unit: char, rest: string, wanted: char): Option<Amount> {
    if Find(pre, wanted).Some? then Find(pre, wanted)
    else if wanted == unit then Some(here)
    else Find(rest, wanted)
  }

  lemma {:induction false} FindPrinted(
      pre: string, number: string, s: string, gap: string, unit: string, rest: string, wanted: char)
    requires Separates(pre) && number != "" && IsDigit(number[0]) && (forall c | c in number :: InNumber(c))
    requires Tail(s, gap, unit, rest) && wanted in "KMG"
    ensures Find(pre + (number + s), wanted) ==
            Expected(pre, Amount(WithoutCommas(number), ""), Letter(unit), rest, wanted)
  {
    hide MatchAt, WithoutCommas, Find, Separates;
    assert (number + s)[0] == number[0];
    FindBefore(pre, number + s, wanted);
    if wanted == Letter(unit) {
      MatchNumber(number, s, gap, unit, rest, wanted);
      FoundAtOnce(number + s, wanted);
    } else {
      FindNumber(number, s, gap, unit, rest, wanted);
    }
  }

  lemma GroupedStart(n: nat)
    ensures Grouped(n) != "" && IsDigit(Grouped(n)[0])
  {
    if n < 1000 {
      assert Itoa(n)[0] in Itoa(n);
    } else {
      GroupedStart(n / 1000);
    }
  }

  /** The searches in their order. */
  function Order(unit: char): nat { if unit == 'K' then 0 else if unit == 'M' then 1 else 2 }

  /** The printed size is the first that the searches come to: the text before it has none in its unit or in one that
      is searched for earlier, and the text behind it has none in an earlier one. */
  ghost predicate FirstFound(pre: string, unit: char, rest: string) {
    && (forall w | w in "KMG" && Order(w) <= Order(unit) :: Find(pre, w).None?)
    && (forall w | w in "KMG" && Order(w) < Order(unit) :: Find(rest, w).None?)
  }

  /** Then it is read off exactly. */
  lemma {:induction false} SizeOfPrinted(pre: string, n: nat, gap: string, unit: string, rest: string)
    requires Separates(pre) && Tail(gap + unit + rest, gap, unit, rest) && FirstFound(pre, Letter(unit), rest)
    ensures ParseSizeMB(pre + Grouped(n) + gap + unit + rest) ==
            match Letter(unit)
            case 'K' => Round(n as real / 1024.0)
            case 'M' => if n < 0x8000_0000_0000_0000 then n else 0x7FFF_FFFF_FFFF_FFFF
            case _ => 1024 * n
  {
    hide MatchAt, Grouped, WithoutCommas, Find, Separates;
    var s := gap + unit + rest;
    var number := Grouped(n);
    GroupedValue(n);
    GroupedStart(n);
    assert pre + number + gap + unit + rest == pre + (number + s);
    FindPrinted(pre, number, s, gap, unit, rest, 'K');
    FindPrinted(pre, number, s, gap, unit, rest, 'M');
    FindPrinted(pre, number, s, gap, unit, rest, 'G');
    assert 'K' in "KMG" && 'M' in "KMG" && 'G' in "KMG";
    assert Pow10(0) == 1;
  }

  /** A comma in front of a unit counts as a number without digits, and as one in kilobytes it comes first. */
  lemma CommaBeforeUnit(n: nat)
    ensures ParseSizeMB("" + (Grouped(n) + " GB, KB")) == 0
  {
    hide Grouped, WithoutCommas, Find, MatchAt, InNumber, IsDigit, Amount.Real;
    GroupedValue(n);
    GroupedStart(n);
    var s, rest := " GB, KB", ", KB";
    assert s == " " + "GB" + rest && 'K' in "KMG";
    FindPrinted("", Grouped(n), s, " ", "GB", rest, 'K');
    NothingInNothing('K');
    LoneComma();
  }

  lemma LoneComma()
    ensures Find(", KB", 'K') == Some(Amount("", "")) && Amount("", "").Real() == 0.0
  {
    SpanOf(",", " KB", InNumber);
    assert "," + " KB" == ", KB" && ", KB"[1..] == " KB" && ", KB"[..1] == ",";
    SpanOf(" ", "KB", IsGap);
    assert " " + "KB" == " KB";
    assert WithoutCommas(",") == "";
    FoundAtOnce(", KB", 'K');
  }

  lemma {:induction false} FindPastPoint(number: string, f: string, s: string, gap: string, rest: string, wanted: char)
    requires forall c | c in number :: InNumber(c)
    requires f != "" && AllDigits(f) && Tail(s, gap, "GB", rest) && wanted in "KM"
    ensures Find(number + ("." + (f + s)), wanted) == Find(rest, wanted)
  {
    hide MatchAt;
    if number == "" {
      FindSkips(".", f + s, wanted);
      FindNumber(f, s, gap, "GB", rest, wanted);
      assert number + ("." + (f + s)) == "." + (f + s);
    } else {
      MatchFraction(number, f, s, gap, rest, wanted);
      assert (number + ("." + (f + s)))[1..] == number[1..] + ("." + (f + s));
      FindPastPoint(number[1..], f, s, gap, rest, wanted);
    }
  }

  lemma Regroup(pre: string, number: string, f: string, gap: string, rest: string)
    ensures pre + number + "." + f + gap + "GB" + rest == pre + (number + ("." + (f + (gap + "GB" + rest))))
  {
    assert pre + number + "." + f + gap + "GB" + rest == pre + number + "." + f + (gap + "GB" + rest);
    assert pre + number + "." + f == pre + (number + ("." + f));
  }

  lemma {:induction false} FindFraction(
      pre: string, number: string, f: string, s: string, gap: string, rest: string, wanted: char)
    requires Separates(pre) && number != "" && IsDigit(number[0]) && (forall c | c in number :: InNumber(c))
    requires f != "" && AllDigits(f) && Tail(s, gap, "GB", rest) && wanted in "KMG"
    ensures Find(pre + (number + ("." + (f + s))), wanted) ==
            Expected(pre, Amount(WithoutCommas(number), f), 'G', rest, wanted)
  {
    hide MatchAt, WithoutCommas, Find, Tail, Separates;
    var t := number + ("." + (f + s));
    assert t[0] == number[0];
    FindBefore(pre, t, wanted);
    if wanted == 'G' {
      MatchFraction(number, f, s, gap, rest, 'G');
      FoundAtOnce(t, 'G');
    } else {
      FindPastPoint(number, f, s, gap, rest, wanted);
    }
  }

  /** So is a size in gigabytes with a decimal fraction. */
  lemma {:induction false} SizeOfFraction(pre: string, n: nat, f: string, gap: string, rest: string)
    requires Separates(pre) && f != "" && AllDigits(f) && Tail(gap + "GB" + rest, gap, "GB", rest)
    requires FirstFound(pre, 'G', rest)
    ensures ParseSizeMB(pre + Grouped(n) + "." + f + gap + "GB" + rest) ==
            Round((n as real + DigitsValue(f) as real / Pow10(|f|) as real) * 1024.0)
  {
    hide MatchAt, WithoutCommas, Find, Tail, Separates, Grouped, Round, DigitsValue, Pow10, InNumber, IsDigit;
    GroupedValue(n);
    GroupedStart(n);
    Regroup(pre, Grouped(n), f, gap, rest);
    var s := gap + "GB" + rest;
    assert 'K' in "KMG" && 'M' in "KMG" && 'G' in "KMG";
    FindFraction(pre, Grouped(n), f, s, gap, rest, 'K');
    FindFraction(pre, Grouped(n), f, s, gap, rest, 'M');
    FindFraction(pre, Grouped(n), f, s, gap, rest, 'G');
  }

  // ---- the sizes agree -------------------------------------------------------------------------

  /** A capacity field that is not positive counts as none. */
  lemma SizeFallsBack(kb: real, bytes: Option<real>, text: string)
    requires kb <= 0.0
    ensures SizeMB(Some(kb), bytes, text) == SizeMB(None, bytes, text)
    ensures bytes.Some? && bytes.value <= 0.0 ==> SizeMB(None, bytes, text) == SizeMB(None, None, text)
    ensures SizeMB(None, None, text) == ParseSizeMB(text)
  {}

  /** A summary in which no search finds anything gives 0. */
  lemma NoSize(text: string)
    requires Find(text, 'K').None? && Find(text, 'M').None? && Find(text, 'G').None?
    ensures ParseSizeMB(text) == 0
  {}

  /** The size in MB is the only one within half a megabyte, halves rounded up. */
  lemma RoundedKB(n: nat)
    ensures -512 <= n - 1024 * Round(n as real / 1024.0) < 512
  {
    var q := Round(n as real / 1024.0);
    assert q as real <= n as real / 1024.0 + 0.5 < (q + 1) as real;
  }

  /** All three ways of giving n kilobytes lead to the same size, the nearest number of megabytes. */
  lemma SizesAgree(n: nat, other: Option<real>, text: string)
    requires n > 0
    ensures var size := SizeMB(Some(n as real), other, text);
            && SizeMB(None, Some(1024.0 * n as real), text) == size
            && SizeMB(None, None, Grouped(n) + " KB") == size
            && -512 <= n - 1024 * size < 512
  {
    hide Find, Grouped;
    NothingElse();
    SizeOfPrinted("", n, " ", "KB", "");
    SpaceUnit(Grouped(n), "KB", " KB");
    assert 1024.0 * n as real / (1024.0 * 1024.0) == n as real / 1024.0;
    RoundedKB(n);
  }

  lemma NothingElse()
    ensures Separates("") && forall unit :: FirstFound("", unit, "")
  {
    forall unit ensures FirstFound("", unit, "") {
      forall w | w in "KMG" ensures Find("", w).None? { NothingInNothing(w); }
    }
  }

  lemma SpaceUnit(number: string, unit: string, both: string)
    requires " " + unit == both
    ensures "" + number + " " + unit + "" == number + both
  {}

  lemma WholeMB(m: nat)
    ensures Round((1024 * m) as real / 1024.0) == m
  {
    RoundedKB(1024 * m);
  }

  /** The same capacity gives the same size in every unit. */
  lemma {:induction false} UnitsAgree(n: nat)
    requires 1024 * n < 0x8000_0000_0000_0000
    ensures ParseSizeMB(Grouped(1024 * 1024 * n) + " KB") == ParseSizeMB(Grouped(1024 * n) + " MB")
            == ParseSizeMB(Grouped(n) + " GB") == 1024 * n
  {
    hide Find, Grouped;
    NothingElse();
    SizeOfPrinted("", 1024 * 1024 * n, " ", "KB", "");
    SizeOfPrinted("", 1024 * n, " ", "MB", "");
    SizeOfPrinted("", n, " ", "GB", "");
    SpaceUnit(Grouped(1024 * 1024 * n), "KB", " KB");
    SpaceUnit(Grouped(1024 * n), "MB", " MB");
    SpaceUnit(Grouped(n), "GB", " GB");
    WholeMB(1024 * n);
  }
}
