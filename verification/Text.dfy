/** The few operations of Go's `strings` and `strconv` packages that the modelled code uses. */
module Text {

  datatype Option<+T> = None | Some(value: T)

  // ---- decimal numbers -------------------------------------------------------------------

  predicate IsDigit(c: char) { '0' <= c <= '9' }

  function DigitChar(d: nat): (c: char)
    requires d < 10
    ensures IsDigit(c) && (c as int) - ('0' as int) == d
  {
    ('0' as int + d) as char
  }

  /** strconv.Itoa on natural numbers. */
  function Itoa(n: nat): (s: string)
    ensures s != "" && forall c | c in s :: IsDigit(c)
  {
    if n < 10 then [DigitChar(n)] else Itoa(n / 10) + [DigitChar(n % 10)]
  }

  /** fmt's "%d" on any integer. */
  function ItoaInt(n: int): string {
    if n < 0 then "-" + Itoa(-n) else Itoa(n)
  }

  predicate AllDigits(s: string) { forall c | c in s :: IsDigit(c) }

  /** The number a run of decimal digits stands for (leading zeros allowed). */
  function DigitsValue(s: string): nat
    requires AllDigits(s)
  {
    if s == "" then 0
    else
      assert s[|s| - 1] in s;
      DigitsValue(s[..|s| - 1]) * 10 + (s[|s| - 1] as int - '0' as int)
  }

  lemma {:induction false} DigitsValueOfItoa(n: nat)
    ensures DigitsValue(Itoa(n)) == n
  {
    if n < 10 {
      assert Itoa(n)[..0] == "";
    } else {
      DigitsValueOfItoa(n / 10);
      assert Itoa(n)[..|Itoa(n)| - 1] == Itoa(n / 10);
    }
  }

  lemma ItoaInjective(m: nat, n: nat)
    ensures Itoa(m) == Itoa(n) <==> m == n
  {
    DigitsValueOfItoa(m);
    DigitsValueOfItoa(n);
  }

  /** In "text-number" the last dash is the one before the number. */
  lemma LastDash(a: string, m: nat)
    ensures var s := a + "-" + Itoa(m); s[|a|] == '-' && forall k | |a| < k < |s| :: s[k] != '-'
  {
    var s := a + "-" + Itoa(m);
    forall k | |a| < k < |s| ensures s[k] != '-' {
      assert s[k] == Itoa(m)[k - |a| - 1] && Itoa(m)[k - |a| - 1] in Itoa(m);
    }
  }

  /** "text-number" determines both the text and the number. */
  lemma SuffixInjective(a: string, b: string, m: nat, n: nat)
    ensures a + "-" + Itoa(m) == b + "-" + Itoa(n) <==> a == b && m == n
  {
    LastDash(a, m);
    LastDash(b, n);
    ItoaInjective(m, n);
    var s, t := a + "-" + Itoa(m), b + "-" + Itoa(n);
    assert s == t ==> a == s[..|a|] && b == t[..|a|] && Itoa(m) == s[|a| + 1..] && Itoa(n) == t[|a| + 1..];
  }

  /** strconv.Atoi: an optional sign, then at least one digit, within 64 bits. */
  function Atoi(s: string): Option<int> {
    var neg := s != "" && s[0] == '-';
    var digits := if s != "" && (s[0] == '-' || s[0] == '+') then s[1..] else s;
    if digits == "" || !AllDigits(digits) then None
    else
      var magnitude: int := DigitsValue(digits);
      var v := if neg then -magnitude else magnitude;
      if -0x8000_0000_0000_0000 <= v < 0x8000_0000_0000_0000 then Some(v) else None
  }

  lemma AtoiOfItoa(n: nat)
    ensures Atoi(Itoa(n)) == if n < 0x8000_0000_0000_0000 then Some(n) else None
  {
    DigitsValueOfItoa(n);
    assert Itoa(n)[0] in Itoa(n);
  }

  lemma AtoiSigned(sign: char, n: nat)
    requires sign in "+-"
    ensures var m: int := n;
            var v := if sign == '-' then -m else m;
            Atoi([sign] + Itoa(n)) ==
            if -0x8000_0000_0000_0000 <= v < 0x8000_0000_0000_0000 then Some(v) else None
  {
    hide Itoa, DigitsValue;
    DigitsValueOfItoa(n);
    assert ([sign] + Itoa(n))[1..] == Itoa(n);
  }

  /** Every int64 is read back from its decimal form, with its sign; a plus sign is allowed. */
  lemma AtoiOfItoaInt(n: int)
    ensures Atoi(ItoaInt(n)) == if -0x8000_0000_0000_0000 <= n < 0x8000_0000_0000_0000 then Some(n) else None
    ensures 0 <= n ==> Atoi("+" + Itoa(n)) == Atoi(Itoa(n))
  {
    hide Itoa, DigitsValue, Atoi;
    if n < 0 {
      AtoiSigned('-', -n);
    } else {
      AtoiSigned('+', n);
      AtoiOfItoa(n);
    }
  }

  /** Nothing else than an optional sign and digits is read. */
  lemma AtoiReads(s: string)
    requires Atoi(s).Some?
    ensures s != "" && (IsDigit(s[0]) || ((s[0] == '-' || s[0] == '+') && |s| > 1))
    ensures forall i | 0 < i < |s| :: IsDigit(s[i])
  {
    var digits := if s[0] == '-' || s[0] == '+' then s[1..] else s;
    assert forall i | 0 <= i < |digits| :: digits[i] in digits;
    assert digits[0] in digits;
    assert |digits| < |s| ==> forall i | 0 < i < |s| :: s[i] == digits[i - 1];
  }

  // ---- white space -----------------------------------------------------------------------

  /** unicode.IsSpace */
  predicate IsSpace(c: char) {
    c in "\t\n\r " || c == 11 as char || c == 12 as char || c == 0x85 as char || c == 0xA0 as char ||
    c == 0x1680 as char || (0x2000 as char <= c <= 0x200A as char) || c == 0x2028 as char ||
    c == 0x2029 as char || c == 0x202F as char || c == 0x205F as char || c == 0x3000 as char
  }

  predicate AllSpace(s: string) { forall c | c in s :: IsSpace(c) }

  predicate NoSpace(s: string) { forall c | c in s :: !IsSpace(c) }

  function TrimLeft(s: string): (t: string)
    ensures |t| <= |s| && t == s[|s| - |t|..] && AllSpace(s[..|s| - |t|])
    ensures t != "" ==> !IsSpace(t[0])
  {
    if s != "" && IsSpace(s[0]) then
      var t := TrimLeft(s[1..]);
      assert s[..|s| - |t|] == [s[0]] + s[1..][..|s| - 1 - |t|];
      t
    else s
  }

  function TrimRight(s: string): (t: string)
    ensures t <= s && AllSpace(s[|t|..])
    ensures t != "" ==> !IsSpace(t[|t| - 1])
  {
    if s != "" && IsSpace(s[|s| - 1]) then
      var t := TrimRight(s[..|s| - 1]);
      assert s[|t|..] == s[..|s| - 1][|t|..] + [s[|s| - 1]];
      t
    else s
  }

  /** strings.TrimSpace */
  function Trim(s: string): string { TrimRight(TrimLeft(s)) }

  /** No white space at either end. */
  predicate Trimmed(s: string) { s == "" || (!IsSpace(s[0]) && !IsSpace(s[|s| - 1])) }

  lemma TrimIsTrimmed(s: string)
    ensures Trimmed(Trim(s))
  {}

  lemma {:induction false} TrimLeftSkips(pre: string, t: string)
    requires AllSpace(pre) && (t == "" || !IsSpace(t[0]))
    ensures TrimLeft(pre + t) == t
  {
    if pre == "" {
      assert pre + t == t;
    } else {
      assert (pre + t)[1..] == pre[1..] + t;
      assert pre[0] in pre;
      TrimLeftSkips(pre[1..], t);
    }
  }

  lemma {:induction false} TrimRightSkips(t: string, post: string)
    requires AllSpace(post) && (t == "" || !IsSpace(t[|t| - 1]))
    ensures TrimRight(t + post) == t
  {
    if post == "" {
      assert t + post == t;
    } else {
      var n := |post| - 1;
      assert (t + post)[..|t + post| - 1] == t + post[..n];
      assert post[n] in post;
      TrimRightSkips(t, post[..n]);
    }
  }

  /** Trimming removes exactly the surrounding white space. */
  lemma {:induction false} TrimAround(pre: string, t: string, post: string)
    requires AllSpace(pre) && AllSpace(post) && Trimmed(t)
    ensures Trim(pre + t + post) == t
  {
    if t == "" {
      assert pre + t + post == (pre + post) + "";
      TrimLeftSkips(pre + post, "");
    } else {
      assert pre + t + post == pre + (t + post);
      TrimLeftSkips(pre, t + post);
      TrimRightSkips(t, post);
    }
  }

  lemma TrimOfTrimmed(s: string)
    requires Trimmed(s)
    ensures Trim(s) == s
  {
    assert [] + s + [] == s;
    TrimAround([], s, []);
  }

  // ---- cutting and joining ---------------------------------------------------------------

  /** strings.Split on a one-character separator. */
  function Split(s: string, sep: char): (parts: seq<string>)
    ensures |parts| >= 1
  {
    if s == "" then [""]
    else
      var rest := Split(s[1..], sep);
      if s[0] == sep then [""] + rest else [[s[0]] + rest[0]] + rest[1..]
  }

  lemma {:induction false} SplitAtFirst(a: string, sep: char, b: string)
    requires sep !in a
    ensures Split(a + [sep] + b, sep) == [a] + Split(b, sep)
  {
    var s := a + [sep] + b;
    if a == "" {
      assert s[1..] == b;
    } else {
      assert s[1..] == a[1..] + [sep] + b && s[0] == a[0] && a[0] in a;
      SplitAtFirst(a[1..], sep, b);
      assert [s[0]] + a[1..] == a;
    }
  }

  lemma {:induction false} SplitNone(a: string, sep: char)
    requires sep !in a
    ensures Split(a, sep) == [a]
  {
    if a != "" {
      assert a[0] in a && [a[0]] + a[1..] == a;
      SplitNone(a[1..], sep);
    }
  }

  /** strings.SplitN(s, sep, 2): the text before and after the first separator, if there is one. */
  function Cut(s: string, sep: char): (r: Option<(string, string)>)
    ensures r.None? <==> sep !in s
    ensures r.Some? ==> sep !in r.value.0 && s == r.value.0 + [sep] + r.value.1
  {
    if s == "" then None
    else if s[0] == sep then Some(("", s[1..]))
    else match Cut(s[1..], sep) {
      case None => None
      case Some((a, b)) => Some(([s[0]] + a, b))
    }
  }

  lemma {:induction false} CutAtFirst(a: string, sep: char, b: string)
    requires sep !in a
    ensures Cut(a + [sep] + b, sep) == Some((a, b))
  {
    var s := a + [sep] + b;
    if a == "" {
      assert s[1..] == b;
    } else {
      assert s[1..] == a[1..] + [sep] + b && s[0] == a[0] && a[0] in a;
      CutAtFirst(a[1..], sep, b);
      assert [s[0]] + a[1..] == a;
    }
  }

  /** Join with a one-character separator after every part. */
  function Lines(parts: seq<string>): string {
    if parts == [] then "" else parts[0] + "\n" + Lines(parts[1..])
  }

  lemma {:induction false} SplitOfLines(parts: seq<string>)
    requires forall p | p in parts :: '\n' !in p
    ensures Split(Lines(parts), '\n') == parts + [""]
  {
    if parts != [] {
      SplitOfLines(parts[1..]);
      SplitAtFirst(parts[0], '\n', Lines(parts[1..]));
      assert parts[0] + ['\n'] + Lines(parts[1..]) == Lines(parts);
    }
  }

  // ---- letter case: every mapping that has an ASCII result ---------------------------------

  /** The dotted capital I and the Kelvin sign are the only others with an ASCII lower case. */
  function LowerChar(c: char): char {
    if 'A' <= c <= 'Z' then (c as int + 32) as char
    else if c == '\U{130}' then 'i'
    else if c == '\U{212A}' then 'k'
    else c
  }

  /** The dotless i and the long s are the only others with an ASCII upper case. */
  function UpperChar(c: char): char {
    if 'a' <= c <= 'z' then (c as int - 32) as char
    else if c == '\U{131}' then 'I'
    else if c == '\U{17F}' then 'S'
    else c
  }

  function ToLower(s: string): (t: string)
    ensures |t| == |s| && forall i | 0 <= i < |s| :: t[i] == LowerChar(s[i])
  {
    seq(|s|, i requires 0 <= i < |s| => LowerChar(s[i]))
  }

  function ToUpper(s: string): (t: string)
    ensures |t| == |s| && forall i | 0 <= i < |s| :: t[i] == UpperChar(s[i])
  {
    seq(|s|, i requires 0 <= i < |s| => UpperChar(s[i]))
  }

  predicate IsAlnum(c: char) { IsDigit(c) || 'a' <= c <= 'z' || 'A' <= c <= 'Z' }
}
