/** Public keys as text: base64 (RFC 4648, sections 4 and 5), hex (section 8), and the cascade of
    decoders in `LoadPublicKeyFromFile` (common/crypto.go). */
module KeyFile {
  import opened Text

  type Byte = b: int | 0 <= b < 256
  type Key = seq<Byte>

  const KEY_SIZE := 32

  // ---- base64 ----------------------------------------------------------------------------

  /** StdEncoding, URLEncoding and their raw (unpadded) forms. */
  datatype Encoding = Encoding(url: bool, padded: bool)

  const ENCODINGS := [Encoding(false, true), Encoding(true, true), Encoding(false, false), Encoding(true, false)]

  type Sextet = v: int | 0 <= v < 64

  function CharOf(url: bool, v: Sextet): char {
    if v < 26 then ('A' as int + v) as char
    else if v < 52 then ('a' as int + v - 26) as char
    else if v < 62 then ('0' as int + v - 52) as char
    else if v == 62 then (if url then '-' else '+')
    else (if url then '_' else '/')
  }

  function ValueOf(url: bool, c: char): Option<Sextet> {
    if 'A' <= c <= 'Z' then Some(c as int - 'A' as int)
    else if 'a' <= c <= 'z' then Some(c as int - 'a' as int + 26)
    else if '0' <= c <= '9' then Some(c as int - '0' as int + 52)
    else if c == (if url then '-' else '+') then Some(62)
    else if c == (if url then '_' else '/') then Some(63)
    else None
  }

  /** Where the two alphabets both know a character they agree on it. */
  lemma ValueOfChar(url: bool, url': bool, v: Sextet)
    ensures ValueOf(url, CharOf(url, v)) == Some(v)
    ensures ValueOf(url', CharOf(url, v)) in {None, Some(v)}
    ensures ValueOf(url', CharOf(url, v)) == None ==> url' != url
    ensures !IsSpace(CharOf(url, v)) && CharOf(url, v) != '='
  {}

  /** The alphabets of RFC 4648: A to Z, a to z, 0 to 9 in order, and two more characters. */
  lemma Alphabets(url: bool)
    ensures CharOf(url, 0) == 'A' && CharOf(url, 26) == 'a' && CharOf(url, 52) == '0'
    ensures CharOf(url, 25) == 'Z' && CharOf(url, 51) == 'z' && CharOf(url, 61) == '9'
    ensures forall v: Sextet | v < 61 && v != 25 && v != 51 :: CharOf(url, v + 1) as int == CharOf(url, v) as int + 1
    ensures CharOf(false, 62) == '+' && CharOf(false, 63) == '/' && CharOf(true, 62) == '-' && CharOf(true, 63) == '_'
  {}

  lemma CharOfValue(url: bool, c: char)
    ensures ValueOf(url, c).Some? ==> CharOf(url, ValueOf(url, c).value) == c
  {}

  function Pad(e: Encoding, n: nat): string { if e.padded then seq(n, _ => '=') else "" }

  function Encode(e: Encoding, b: seq<Byte>): string {
    if b == [] then ""
    else if |b| == 1 then [CharOf(e.url, b[0] / 4), CharOf(e.url, b[0] % 4 * 16)] + Pad(e, 2)
    else if |b| == 2 then
      [CharOf(e.url, b[0] / 4), CharOf(e.url, b[0] % 4 * 16 + b[1] / 16), CharOf(e.url, b[1] % 16 * 4)] + Pad(e, 1)
    else Group(e.url, b[0], b[1], b[2]) + Encode(e, b[3..])
  }

  function Group(url: bool, a: Byte, b: Byte, c: Byte): string {
    [CharOf(url, a / 4), CharOf(url, a % 4 * 16 + b / 16), CharOf(url, b % 16 * 4 + c / 64), CharOf(url, c % 64)]
  }

  function One(v: Sextet, w: Sextet): Byte { v * 4 + w / 16 }

  function Two(w: Sextet, x: Sextet): Byte { w % 16 * 16 + x / 4 }

  function Three(x: Sextet, y: Sextet): Byte { x % 4 * 64 + y }

  /** Go's decoder after it has skipped line breaks: groups of four, padding only in the last group and
      only for padded encodings, left-over bits ignored. */
  function DecodeClean(e: Encoding, s: string): Option<seq<Byte>> {
    if s == "" then Some([])
    else if |s| == 1 || (|s| < 4 && e.padded) then None
    else match (ValueOf(e.url, s[0]), ValueOf(e.url, s[1])) {
      case (Some(v), Some(w)) =>
        if |s| == 2 then Some([One(v, w)])
        else (match ValueOf(e.url, s[2]) {
          case None => if e.padded && s[2..] == "==" then Some([One(v, w)]) else None
          case Some(x) =>
            if |s| == 3 then Some([One(v, w), Two(w, x)])
            else (match ValueOf(e.url, s[3]) {
              case None => if e.padded && s[3..] == "=" then Some([One(v, w), Two(w, x)]) else None
              case Some(y) =>
                match DecodeClean(e, s[4..]) {
                  case None => None
                  case Some(rest) => Some([One(v, w), Two(w, x), Three(x, y)] + rest)
                }
            })
        })
      case _ => None
    }
  }

  function DropBreaks(s: string): string {
    if s == "" then "" else (if s[0] in "\r\n" then "" else [s[0]]) + DropBreaks(s[1..])
  }

  function Decode(e: Encoding, s: string): Option<seq<Byte>> { DecodeClean(e, DropBreaks(s)) }

  lemma Regroup(a: Byte, b: Byte, c: Byte)
    ensures One(a / 4, a % 4 * 16 + b / 16) == a
    ensures Two(a % 4 * 16 + b / 16, b % 16 * 4 + c / 64) == b
    ensures Three(b % 16 * 4 + c / 64, c % 64) == c
    ensures One(a / 4, a % 4 * 16) == a && Two(a % 4 * 16 + b / 16, b % 16 * 4) == b
  {}

  /** A whole group read with any alphabet: refused, or the three bytes it was made from. */
  lemma {:induction false} DecodeGroup(e: Encoding, url: bool, a: Byte, b: Byte, c: Byte, rest: string)
    ensures var r := DecodeClean(e, Group(url, a, b, c) + rest);
            var r' := DecodeClean(e, rest);
            || r == (if r'.Some? then Some([a, b, c] + r'.value) else None)
            || (e.url != url && r == None)
  {
    ValueOfChar(url, e.url, a / 4);
    ValueOfChar(url, e.url, a % 4 * 16 + b / 16);
    ValueOfChar(url, e.url, b % 16 * 4 + c / 64);
    ValueOfChar(url, e.url, c % 64);
    Regroup(a, b, c);
    var s := Group(url, a, b, c) + rest;
    assert s[4..] == rest;
    assert s[2..] == [s[2], s[3]] + rest && s[3..] == [s[3]] + rest;
  }

  lemma DecodeEnd1(e: Encoding, e': Encoding, c: char, d: char, v: Sextet, w: Sextet)
    requires ValueOf(e.url, c) == Some(v) && ValueOf(e'.url, c) in {None, Some(v)}
    requires ValueOf(e.url, d) == Some(w) && ValueOf(e'.url, d) in {None, Some(w)}
    ensures DecodeClean(e', [c, d] + Pad(e, 2)) in {None, Some([One(v, w)])}
    ensures DecodeClean(e, [c, d] + Pad(e, 2)) == Some([One(v, w)])
  {
    var s := [c, d] + Pad(e, 2);
    assert s[2..] == Pad(e, 2);
    if e.padded {
      assert Pad(e, 2) == "==" && s[2] == '=';
    }
  }

  lemma DecodeEnd2(e: Encoding, e': Encoding, c: char, d: char, f: char, v: Sextet, w: Sextet, x: Sextet)
    requires ValueOf(e.url, c) == Some(v) && ValueOf(e'.url, c) in {None, Some(v)}
    requires ValueOf(e.url, d) == Some(w) && ValueOf(e'.url, d) in {None, Some(w)}
    requires ValueOf(e.url, f) == Some(x) && ValueOf(e'.url, f) in {None, Some(x)} && f != '='
    ensures DecodeClean(e', [c, d, f] + Pad(e, 1)) in {None, Some([One(v, w), Two(w, x)])}
    ensures DecodeClean(e, [c, d, f] + Pad(e, 1)) == Some([One(v, w), Two(w, x)])
  {
    var s := [c, d, f] + Pad(e, 1);
    assert s[3..] == Pad(e, 1);
    if e.padded {
      assert Pad(e, 1) == "=" && s[3] == '=' && s[2..] == [f, '='];
    }
  }

  lemma DecodeEnd(e: Encoding, e': Encoding, b: seq<Byte>)
    requires 1 <= |b| <= 2
    ensures DecodeClean(e', Encode(e, b)) in {None, Some(b)}
    ensures DecodeClean(e, Encode(e, b)) == Some(b)
  {
    var v: Sextet := b[0] / 4;
    ValueOfChar(e.url, e'.url, v);
    if |b| == 1 {
      var w: Sextet := b[0] % 4 * 16;
      ValueOfChar(e.url, e'.url, w);
      Regroup(b[0], 0, 0);
      DecodeEnd1(e, e', CharOf(e.url, v), CharOf(e.url, w), v, w);
      assert [One(v, w)] == b;
    } else {
      var w: Sextet, x: Sextet := b[0] % 4 * 16 + b[1] / 16, b[1] % 16 * 4;
      ValueOfChar(e.url, e'.url, w);
      ValueOfChar(e.url, e'.url, x);
      Regroup(b[0], b[1], 0);
      DecodeEnd2(e, e', CharOf(e.url, v), CharOf(e.url, w), CharOf(e.url, x), v, w, x);
      assert [One(v, w), Two(w, x)] == b;
    }
  }

  /** Text of one encoding read by any other: the same bytes or no bytes at all. */
  lemma {:induction false} DecodeOther(e: Encoding, e': Encoding, b: seq<Byte>)
    ensures DecodeClean(e', Encode(e, b)) in {None, Some(b)}
    ensures DecodeClean(e, Encode(e, b)) == Some(b)
  {
    if 1 <= |b| <= 2 {
      DecodeEnd(e, e', b);
    } else if |b| >= 3 {
      DecodeOther(e, e', b[3..]);
      DecodeGroup(e, e.url, b[0], b[1], b[2], Encode(e, b[3..]));
      DecodeGroup(e', e.url, b[0], b[1], b[2], Encode(e, b[3..]));
      assert [b[0], b[1], b[2]] + b[3..] == b;
    }
  }

  lemma EncodeStep(e: Encoding, b: seq<Byte>)
    ensures |b| >= 3 ==> |Encode(e, b)| == 4 + |Encode(e, b[3..])|
    ensures |b| < 3 ==> |Encode(e, b)| == if |b| == 0 then 0 else if e.padded then 4 else |b| + 1
  {
    hide CharOf;
  }

  lemma {:induction false} EncodeLength(e: Encoding, b: seq<Byte>)
    ensures |Encode(e, b)| == if e.padded then (|b| + 2) / 3 * 4 else (|b| * 4 + 2) / 3
  {
    hide Encode;
    EncodeStep(e, b);
    if |b| >= 3 {
      EncodeLength(e, b[3..]);
    }
  }

  lemma CharsNoSpace(url: bool, vs: seq<Sextet>, pad: string)
    requires forall c | c in pad :: c == '='
    ensures NoSpace(seq(|vs|, i requires 0 <= i < |vs| => CharOf(url, vs[i])) + pad)
  {
    forall v: Sextet ensures !IsSpace(CharOf(url, v)) { ValueOfChar(url, url, v); }
  }

  /** s is the text of b up to left-over bits in the last character before the padding. */
  ghost predicate Spells(e: Encoding, s: string, b: seq<Byte>) {
    var t := Encode(e, b);
    && |s| == |t|
    && forall i | 0 <= i < |s| && s[i] != t[i] :: ValueOf(e.url, s[i]).Some? && (i + 1 == |s| || s[i + 1] == '=')
  }

  lemma RegroupBack(v: Sextet, w: Sextet, x: Sextet, y: Sextet)
    ensures One(v, w) / 4 == v && One(v, w) % 4 * 16 + Two(w, x) / 16 == w
    ensures Two(w, x) % 16 * 4 + Three(x, y) / 64 == x && Three(x, y) % 64 == y
  {}

  lemma SpellsGroup(e: Encoding, s: string, b: seq<Byte>, rest: string, bytes: seq<Byte>)
    requires |b| == 3 && s == Group(e.url, b[0], b[1], b[2]) && Spells(e, rest, bytes)
    ensures Spells(e, s + rest, b + bytes)
  {
    hide CharOf, ValueOf, Pad;
    var t := Encode(e, b + bytes);
    assert (b + bytes)[3..] == bytes;
    assert t == s + Encode(e, bytes);
    forall i | 0 <= i < |s + rest| && (s + rest)[i] != t[i]
      ensures ValueOf(e.url, (s + rest)[i]).Some? && (i + 1 == |s + rest| || (s + rest)[i + 1] == '=')
    {
      assert i >= 4 && rest[i - 4] != Encode(e, bytes)[i - 4];
    }
  }

  /** Nothing decodes but spellings: other characters, wrong lengths and misplaced padding are refused. */
  lemma {:induction false} DecodesSpellings(e: Encoding, s: string)
    ensures DecodeClean(e, s).Some? ==> Spells(e, s, DecodeClean(e, s).value)
  {
    if DecodeClean(e, s).Some? && s != "" {
      if |s| >= 4 && ValueOf(e.url, s[2]).Some? && ValueOf(e.url, s[3]).Some? {
        DecodesSpellings(e, s[4..]);
        WholeGroup(e, s);
      } else {
        LastGroup(e, s);
      }
    }
  }

  lemma WholeGroup(e: Encoding, s: string)
    requires |s| >= 4 && ValueOf(e.url, s[2]).Some? && ValueOf(e.url, s[3]).Some? && DecodeClean(e, s).Some?
    requires DecodeClean(e, s[4..]).Some? ==> Spells(e, s[4..], DecodeClean(e, s[4..]).value)
    ensures Spells(e, s, DecodeClean(e, s).value)
  {
    hide CharOf, ValueOf, Pad, Spells;
    var v, w, x, y := ValueOf(e.url, s[0]).value, ValueOf(e.url, s[1]).value, ValueOf(e.url, s[2]).value,
        ValueOf(e.url, s[3]).value;
    var b := [One(v, w), Two(w, x), Three(x, y)];
    RegroupBack(v, w, x, y);
    forall i | 0 <= i < 4 { CharOfValue(e.url, s[i]); }
    assert s == s[..4] + s[4..] && s[..4] == Group(e.url, b[0], b[1], b[2]);
    SpellsGroup(e, s[..4], b, s[4..], DecodeClean(e, s[4..]).value);
  }

  lemma LastGroup(e: Encoding, s: string)
    requires s != "" && DecodeClean(e, s).Some?
    requires |s| < 4 || ValueOf(e.url, s[2]).None? || ValueOf(e.url, s[3]).None?
    ensures Spells(e, s, DecodeClean(e, s).value)
  {
    hide CharOf, ValueOf;
    forall i | 0 <= i < |s| { CharOfValue(e.url, s[i]); }
    var v, w := ValueOf(e.url, s[0]).value, ValueOf(e.url, s[1]).value;
    RegroupBack(v, w, if |s| > 2 && ValueOf(e.url, s[2]).Some? then ValueOf(e.url, s[2]).value else 0, 0);
  }

  lemma {:induction false} EncodeNoSpace(e: Encoding, b: seq<Byte>)
    ensures NoSpace(Encode(e, b))
  {
    if b != [] {
      var s := Encode(e, b);
      var vs: seq<Sextet> := if |b| == 1 then [b[0] / 4, b[0] % 4 * 16]
          else if |b| == 2 then [b[0] / 4, b[0] % 4 * 16 + b[1] / 16, b[1] % 16 * 4]
          else [b[0] / 4, b[0] % 4 * 16 + b[1] / 16, b[1] % 16 * 4 + b[2] / 64, b[2] % 64];
      var pad := if |b| == 1 then Pad(e, 2) else if |b| == 2 then Pad(e, 1) else "";
      CharsNoSpace(e.url, vs, pad);
      var chars := seq(|vs|, i requires 0 <= i < |vs| => CharOf(e.url, vs[i]));
      if |b| < 3 {
        assert s == chars + pad;
      } else {
        EncodeNoSpace(e, b[3..]);
        assert s == chars + pad + Encode(e, b[3..]);
      }
    }
  }

  lemma {:induction false} DropBreaksNone(s: string)
    requires NoSpace(s)
    ensures DropBreaks(s) == s
  {
    if s != "" {
      assert s[0] in s;
      DropBreaksNone(s[1..]);
    }
  }

  /** RFC 4648 round trip, and no confusion between the four variants. */
  lemma {:induction false} Base64RoundTrip(e: Encoding, e': Encoding, b: seq<Byte>)
    ensures Decode(e, Encode(e, b)) == Some(b)
    ensures Decode(e', Encode(e, b)) in {None, Some(b)}
  {
    EncodeNoSpace(e, b);
    DropBreaksNone(Encode(e, b));
    DecodeOther(e, e', b);
  }

  // ---- hex -------------------------------------------------------------------------------

  function HexValue(c: char): Option<int> {
    if '0' <= c <= '9' then Some(c as int - '0' as int)
    else if 'a' <= c <= 'f' then Some(c as int - 'a' as int + 10)
    else if 'A' <= c <= 'F' then Some(c as int - 'A' as int + 10)
    else None
  }

  /** hex.DecodeString */
  function DecodeHex(s: string): Option<seq<Byte>> {
    if s == "" then Some([])
    else if |s| == 1 then None
    else match (HexValue(s[0]), HexValue(s[1]), DecodeHex(s[2..])) {
      case (Some(h), Some(l), Some(rest)) => Some([h * 16 + l] + rest)
      case _ => None
    }
  }

  const LOWER_HEX := "0123456789abcdef"
  const UPPER_HEX := "0123456789ABCDEF"

  predicate HexDigit(c: char, v: nat)
    requires v < 16
  {
    c == LOWER_HEX[v] || c == UPPER_HEX[v]
  }

  lemma HexDigits(c: char, v: nat)
    requires v < 16
    ensures HexValue(c) == Some(v) <==> HexDigit(c, v)
  {}

  /** `s` writes `b` in hex, each digit in upper or lower case. */
  predicate IsHexOf(s: string, b: seq<Byte>) {
    |s| == 2 * |b| && forall i | 0 <= i < |b| :: HexDigit(s[2 * i], b[i] / 16) && HexDigit(s[2 * i + 1], b[i] % 16)
  }

  lemma HexHead(s: string, b: seq<Byte>)
    requires b != [] && |s| == 2 * |b|
    ensures IsHexOf(s, b) <==> HexDigit(s[0], b[0] / 16) && HexDigit(s[1], b[0] % 16) && IsHexOf(s[2..], b[1..])
  {
    hide HexDigit;
    if IsHexOf(s, b) {
      assert HexDigit(s[2 * 0], b[0] / 16) && HexDigit(s[2 * 0 + 1], b[0] % 16);
      forall i | 0 <= i < |b[1..]|
        ensures HexDigit(s[2..][2 * i], b[1..][i] / 16) && HexDigit(s[2..][2 * i + 1], b[1..][i] % 16)
      {
        assert HexDigit(s[2 * (i + 1)], b[i + 1] / 16) && HexDigit(s[2 * (i + 1) + 1], b[i + 1] % 16);
      }
    }
  }

  /** Hex decodes exactly from its spellings. */
  lemma {:induction false} DecodeHexOf(s: string, b: seq<Byte>)
    ensures DecodeHex(s) == Some(b) <==> IsHexOf(s, b)
  {
    hide HexValue, HexDigit;
    if s == "" || |s| == 1 || b == [] {
      if |s| >= 2 {
        HexNotEmpty(s);
      }
    } else if |s| == 2 * |b| {
      HexHead(s, b);
      DecodeHexOf(s[2..], b[1..]);
      HexDigits(s[0], b[0] / 16);
      HexDigits(s[1], b[0] % 16);
      HexStep(s, b);
    } else {
      HexLength(s);
    }
  }

  lemma HexNotEmpty(s: string)
    requires |s| >= 2
    ensures DecodeHex(s) != Some([])
  {}

  lemma HexRange(c: char)
    ensures HexValue(c).Some? ==> 0 <= HexValue(c).value < 16
  {}

  lemma HexStep(s: string, b: seq<Byte>)
    requires |s| >= 2 && b != []
    ensures DecodeHex(s) == Some(b) <==>
            HexValue(s[0]) == Some(b[0] / 16) && HexValue(s[1]) == Some(b[0] % 16) && DecodeHex(s[2..]) == Some(b[1..])
  {
    hide HexValue;
    HexRange(s[0]);
    HexRange(s[1]);
    assert [b[0]] + b[1..] == b;
    if DecodeHex(s) == Some(b) {
      var h, l, rest := HexValue(s[0]).value, HexValue(s[1]).value, DecodeHex(s[2..]).value;
      assert b == [h * 16 + l] + rest;
      assert b[1..] == rest && b[0] == h * 16 + l;
    }
  }

  lemma {:induction false} HexLength(s: string)
    ensures DecodeHex(s).Some? ==> |s| == 2 * |DecodeHex(s).value|
  {
    hide HexValue;
    if |s| >= 2 {
      HexLength(s[2..]);
    }
  }

  // ---- the cascade -----------------------------------------------------------------------

  /** What the PEM decoder and the PKIX parser make of a text. */
  datatype Pem = NoBlock | Unusable | PublicKey(key: Key)

  type PemReader = string -> Pem

  /** A PEM block starts with a line "-----BEGIN ...", which has a blank in it. */
  ghost predicate PemNeedsBlank(pem: PemReader) {
    forall t :: pem(t) != NoBlock ==> ' ' in t
  }

  function TrimSuffix(s: string, c: char): string {
    if s != "" && s[|s| - 1] == c then s[..|s| - 1] else s
  }

  /** The first encoding that yields a key of the right size. */
  function FirstKey(encodings: seq<Encoding>, s: string): Option<Key> {
    if encodings == [] then None
    else match Decode(encodings[0], s) {
      case Some(b) => if |b| == KEY_SIZE then Some(b) else FirstKey(encodings[1..], s)
      case None => FirstKey(encodings[1..], s)
    }
  }

  function LoadKey(data: string, pem: PemReader): Option<Key> {
    var trimmed := Trim(data);
    if trimmed == "" then None
    else match pem(trimmed) {
      case PublicKey(k) => Some(k)
      case Unusable => None
      case NoBlock => RawKey(trimmed)
    }
  }

  /** Hex first, then the base64 variants in order. */
  function RawKey(s: string): Option<Key> {
    if |s| == 64 && DecodeHex(s).Some? && |DecodeHex(s).value| == KEY_SIZE then DecodeHex(s)
    else FirstKey(ENCODINGS, TrimSuffix(TrimSuffix(s, '\n'), '\r'))
  }

  /** LoadPublicKeyFromFile on the contents of the file. */
  method LoadPublicKey(data: string, pem: PemReader) returns (key: Option<Key>)
    ensures key == LoadKey(data, pem)
  {
    var strVal := Trim(data);
    if strVal == "" {
      return None;
    }
    match pem(strVal) {
      case PublicKey(k) => return Some(k);
      case Unusable => return None;
      case NoBlock =>
    }
    if |strVal| == 64 {
      var decoded := DecodeHex(strVal);
      if decoded.Some? && |decoded.value| == KEY_SIZE {
        return decoded;
      }
    }
    strVal := TrimSuffix(strVal, '\n');
    strVal := TrimSuffix(strVal, '\r');
    for i := 0 to |ENCODINGS|
      invariant FirstKey(ENCODINGS, strVal) == FirstKey(ENCODINGS[i..], strVal)
    {
      var decoded := Decode(ENCODINGS[i], strVal);
      if decoded.Some? && |decoded.value| == KEY_SIZE {
        return decoded;
      }
    }
    return None;
  }

  lemma {:induction false} FirstKeyOf(encodings: seq<Encoding>, e: Encoding, key: Key)
    requires |key| == KEY_SIZE && e in encodings
    ensures FirstKey(encodings, Encode(e, key)) == Some(key)
  {
    Base64RoundTrip(e, encodings[0], key);
    if Decode(encodings[0], Encode(e, key)).None? {
      FirstKeyOf(encodings[1..], e, key);
    }
  }

  lemma HexShape(s: string, b: seq<Byte>)
    requires IsHexOf(s, b)
    ensures NoSpace(s)
  {
    hide HexDigit;
    forall k | 0 <= k < |s| ensures !IsSpace(s[k]) {
      var i := k / 2;
      assert HexDigit(s[2 * i], b[i] / 16) && HexDigit(s[2 * i + 1], b[i] % 16);
      HexNoSpace(s[2 * i], b[i] / 16);
      HexNoSpace(s[2 * i + 1], b[i] % 16);
    }
  }

  lemma HexNoSpace(c: char, v: nat)
    requires v < 16 && HexDigit(c, v)
    ensures !IsSpace(c)
  {
    HexDigits(c, v);
  }

  /** The five ways of writing a key without PEM. */
  ghost predicate Writes(text: string, key: Key) {
    IsHexOf(text, key) || exists e :: text == Encode(e, key)
  }

  lemma CascadeFindsKey(text: string, key: Key)
    requires |key| == KEY_SIZE && Writes(text, key)
    ensures NoSpace(text) && text != "" && RawKey(text) == Some(key)
  {
    if IsHexOf(text, key) {
      HexShape(text, key);
      DecodeHexOf(text, key);
    } else {
      var e :| text == Encode(e, key);
      EncodeLength(e, key);
      EncodeNoSpace(e, key);
      assert e == ENCODINGS[0] || e == ENCODINGS[1] || e == ENCODINGS[2] || e == ENCODINGS[3];
      FirstKeyOf(ENCODINGS, e, key);
      assert !IsSpace(text[|text| - 1]) by { assert text[|text| - 1] in text; }
      assert TrimSuffix(TrimSuffix(text, '\n'), '\r') == text;
    }
  }

  /** A 32-byte key written in hex or in any of the four base64 variants, with white space around it, loads
      back to itself: no earlier decoder of the cascade claims the text for another key. */
  lemma {:induction false} KeyFileRoundTrip(key: Key, text: string, pre: string, post: string, pem: PemReader)
    requires |key| == 32 && Writes(text, key)
    requires PemNeedsBlank(pem) && AllSpace(pre) && AllSpace(post)
    ensures LoadKey(pre + text + post, pem) == Some(key)
  {
    CascadeFindsKey(text, key);
    assert text[0] in text && text[|text| - 1] in text;
    TrimAround(pre, text, post);
  }

  // ---- PEM -------------------------------------------------------------------------------------

  /** SavePublicKeyPEM: the text of the file. */
  type PemWriter = Key -> string

  /** What is used of PEM and PKIX: a written key is a block with a line break behind it, and is read back if it has
      the size of an Ed25519 key, but is an unusable block otherwise. */
  ghost predicate PemReadsBack(write: PemWriter, pem: PemReader) {
    forall k: Key :: exists block: string ::
      && write(k) == block + "\n" && block != "" && Trimmed(block)
      && pem(block) == if |k| == 32 then PublicKey(k) else Unusable
  }

  /** A key that was saved loads back, with white space around it, exactly when it has 32 bytes. */
  lemma SavedKeyLoads(k: Key, pre: string, post: string, write: PemWriter, pem: PemReader)
    requires PemReadsBack(write, pem) && AllSpace(pre) && AllSpace(post)
    ensures LoadKey(pre + write(k) + post, pem) == if |k| == 32 then Some(k) else None
  {
    var block: string :| write(k) == block + "\n" && block != "" && Trimmed(block) &&
        pem(block) == if |k| == 32 then PublicKey(k) else Unusable;
    assert pre + write(k) + post == pre + block + ("\n" + post);
    assert AllSpace("\n" + post);
    TrimAround(pre, block, "\n" + post);
  }

  lemma FirstKeySize(encodings: seq<Encoding>, s: string)
    ensures FirstKey(encodings, s).Some? ==> |FirstKey(encodings, s).value| == 32
  {}

  /** What decides about a file: nothing loads from a blank one or from an unusable PEM block, a PEM key loads as it
      is, and whatever else loads has 32 bytes. */
  lemma LoadDecided(data: string, pem: PemReader)
    ensures Trim(data) == "" || pem(Trim(data)) == Unusable ==> LoadKey(data, pem) == None
    ensures Trim(data) != "" ==>
              forall k :: pem(Trim(data)) == PublicKey(k) ==> LoadKey(data, pem) == Some(k)
    ensures pem(Trim(data)) == NoBlock && LoadKey(data, pem).Some? ==> |LoadKey(data, pem).value| == 32
  {
    hide Trim, DecodeHex;
    FirstKeySize(ENCODINGS, TrimSuffix(TrimSuffix(Trim(data), '\n'), '\r'));
  }

  // ---- the signed challenge --------------------------------------------------------------

  function Challenge(agentID: string, timestamp: string): string { agentID + ":" + timestamp }

  /** agentIDRegex: ^[a-zA-Z0-9_\-]+$ */
  predicate ValidAgentID(id: string) { id != "" && forall c | c in id :: IsAlnum(c) || c == '_' || c == '-' }

  /** A signature for one accepted id and timestamp is a signature for no other. */
  lemma ChallengeInjective(id: string, ts: string, id': string, ts': string)
    requires ValidAgentID(id) && ValidAgentID(id')
    ensures Challenge(id, ts) == Challenge(id', ts') <==> id == id' && ts == ts'
  {
    CutAtFirst(id, ':', ts);
    CutAtFirst(id', ':', ts');
  }
}
