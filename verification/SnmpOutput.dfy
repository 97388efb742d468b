/** The parser of snmpwalk and snmpget output (agent/client.go). */
module SnmpOutput {
  import opened Text

  datatype Entry = Entry(oid: string, kind: string, value: string)

  function ParseLine(line: string): Option<Entry> {
    match Cut(Trim(line), '=')
    case None => None
    case Some((oid, rest)) =>
      var value := Trim(rest);
      match Cut(value, ':')
      case Some((kind, v)) => Some(Entry(Trim(oid), Trim(kind), Trim(v)))
      case None => Some(Entry(Trim(oid), "UNKNOWN", value))
  }

  function Entries(lines: seq<string>): seq<Entry> {
    if lines == [] then []
    else
      Entries(lines[..|lines| - 1]) +
      match ParseLine(lines[|lines| - 1]) case Some(e) => [e] case None => []
  }

  method ParseSNMPWalkOutput(output: string) returns (entries: seq<Entry>)
    ensures entries == Entries(Split(output, '\n'))
  {
    hide Trim, Cut, Split;
    entries := [];
    var lines := Split(output, '\n');
    for i := 0 to |lines|
      invariant entries == Entries(lines[..i])
    {
      assert lines[..i + 1][..i] == lines[..i];
      var line := Trim(lines[i]);
      if line == "" {
        continue;
      }
      match Cut(line, '=') {
        case None =>
        case Some((left, right)) =>
          var oid, valPart := Trim(left), Trim(right);
          var kind, value := "UNKNOWN", valPart;
          match Cut(valPart, ':') {
            case None =>
            case Some((k, v)) => kind, value := Trim(k), Trim(v);
          }
          entries := entries + [Entry(oid, kind, value)];
      }
    }
    assert lines[..|lines|] == lines;
  }

  // ---- round trip ------------------------------------------------------------------------------

  function Print(e: Entry): string { e.oid + " = " + e.kind + ": " + e.value }

  function PrintAll(entries: seq<Entry>): seq<string> {
    if entries == [] then [] else PrintAll(entries[..|entries| - 1]) + [Print(entries[|entries| - 1])]
  }

  predicate Field(s: string) { Trimmed(s) && '\n' !in s }

  predicate Printable(e: Entry) {
    Field(e.oid) && Field(e.kind) && Field(e.value) && '=' !in e.oid && ':' !in e.kind
  }

  lemma TrimParts(s: string) returns (pre: string, post: string)
    ensures s == pre + Trim(s) + post && AllSpace(pre) && AllSpace(post)
  {
    hide TrimLeft, TrimRight;
    var left := TrimLeft(s);
    pre, post := s[..|s| - |left|], left[|Trim(s)|..];
  }

  lemma {:induction false} TrimOfTrimRight(s: string)
    ensures Trim(TrimRight(s)) == Trim(s)
  {
    hide Trim, TrimRight;
    var pre, post := TrimParts(s);
    var t := Trim(s);
    TrimIsTrimmed(s);
    if t == "" {
      assert s == "" + (pre + post);
      TrimRightSkips("", pre + post);
      TrimOfTrimmed("");
    } else {
      TrimRightSkips(pre + t, post);
      assert pre + t == pre + t + "";
      TrimAround(pre, t, "");
    }
  }

  lemma TrimOfTrimLeft(s: string)
    ensures Trim(TrimLeft(s)) == Trim(s)
  {
    hide TrimLeft, TrimRight;
    TrimLeftSkips("", TrimLeft(s));
    assert "" + TrimLeft(s) == TrimLeft(s);
  }

  lemma {:induction false} TrimLeftStops(a: string, sep: char, b: string)
    requires !IsSpace(sep)
    ensures TrimLeft(a + [sep] + b) == TrimLeft(a) + [sep] + b
  {
    var s := a + [sep] + b;
    if a != "" && IsSpace(a[0]) {
      assert s[1..] == a[1..] + [sep] + b;
      TrimLeftStops(a[1..], sep, b);
    }
  }

  lemma {:induction false} TrimRightStops(a: string, sep: char, b: string)
    requires !IsSpace(sep)
    ensures TrimRight(a + [sep] + b) == a + [sep] + TrimRight(b)
  {
    var s := a + [sep] + b;
    if b != "" && IsSpace(b[|b| - 1]) {
      assert s[..|s| - 1] == a + [sep] + b[..|b| - 1];
      TrimRightStops(a, sep, b[..|b| - 1]);
    }
  }

  /** Cutting a trimmed text at its first separator gives the same two parts, up to white space. */
  lemma {:induction false} CutTrimmed(a: string, sep: char, b: string)
    requires sep !in a && !IsSpace(sep)
    ensures Cut(Trim(a + [sep] + b), sep) == Some((TrimLeft(a), TrimRight(b)))
    ensures Trim(TrimLeft(a)) == Trim(a) && Trim(TrimRight(b)) == Trim(b)
  {
    TrimLeftStops(a, sep, b);
    TrimRightStops(TrimLeft(a), sep, b);
    assert sep !in TrimLeft(a) by { TrimLeftSubset(a, sep); }
    CutAtFirst(TrimLeft(a), sep, TrimRight(b));
    TrimOfTrimLeft(a);
    TrimOfTrimRight(b);
  }

  lemma TrimLeftSubset(s: string, c: char)
    requires c !in s
    ensures c !in TrimLeft(s)
  {
    hide TrimLeft;
    assert forall i | 0 <= i < |TrimLeft(s)| :: TrimLeft(s)[i] == s[|s| - |TrimLeft(s)| + i];
  }

  lemma TrimSubset(s: string, c: char)
    requires c !in s
    ensures c !in Trim(s)
  {
    hide TrimLeft, TrimRight;
    TrimLeftSubset(s, c);
    assert forall i | 0 <= i < |Trim(s)| :: Trim(s)[i] == TrimLeft(s)[i];
  }

  lemma {:induction false} TrimFieldSpace(s: string)
    requires Trimmed(s)
    ensures Trim(" " + s) == s && Trim(s + " ") == s
  {
    TrimAround(" ", s, "");
    TrimAround("", s, " ");
    assert " " + s + "" == " " + s && "" + s + " " == s + " ";
  }

  lemma {:induction false} LineRoundTrip(e: Entry)
    requires Printable(e)
    ensures ParseLine(Print(e)) == Some(e) && '\n' !in Print(e)
  {
    hide Trim, TrimLeft, TrimRight, Cut, Trimmed;
    var left, kind, value := e.oid + " ", " " + e.kind, " " + e.value;
    TrimFieldSpace(e.oid);
    TrimFieldSpace(e.kind);
    TrimFieldSpace(e.value);
    assert Print(e) == left + ['='] + (kind + [':'] + value);
    CutTrimmed(left, '=', kind + [':'] + value);
    CutTrimmed(kind, ':', value);
  }

  /** A line without "=" gives no entry. */
  lemma NoEquals(line: string)
    requires '=' !in line
    ensures ParseLine(line) == None
  {
    TrimSubset(line, '=');
  }

  /** A right-hand side without ":", such as "No Such Object", is the value as it stands, of kind UNKNOWN. */
  lemma NoKind(oid: string, right: string)
    requires '=' !in oid && ':' !in right
    ensures ParseLine(oid + "=" + right) == Some(Entry(Trim(oid), "UNKNOWN", Trim(right)))
  {
    hide Trim, TrimLeft, TrimRight, Cut;
    assert oid + "=" + right == oid + ['='] + right;
    CutTrimmed(oid, '=', right);
    TrimSubset(right, ':');
  }

  /** Otherwise the kind ends at the first ":". Together the three cases are all lines. */
  lemma WithKind(oid: string, kind: string, value: string)
    requires '=' !in oid && ':' !in kind
    ensures ParseLine(oid + "=" + kind + ":" + value) == Some(Entry(Trim(oid), Trim(kind), Trim(value)))
  {
    hide Trim, TrimLeft, TrimRight, Cut;
    var right := kind + [':'] + value;
    assert oid + "=" + kind + ":" + value == oid + ['='] + right;
    CutTrimmed(oid, '=', right);
    CutTrimmed(kind, ':', value);
  }

  /** Whatever the parser makes of a line can be printed. */
  lemma {:induction false} ParsedPrintable(line: string)
    requires '\n' !in line
    ensures ParseLine(line).Some? ==> Printable(ParseLine(line).value)
  {
    hide Trim, TrimLeft, TrimRight, Cut;
    TrimSubset(line, '\n');
    match Cut(Trim(line), '=')
    case None =>
    case Some((oid, rest)) =>
      TrimIsTrimmed(oid);
      TrimIsTrimmed(rest);
      PartsWithin(Trim(line), '=', '\n');
      TrimSubset(oid, '=');
      TrimSubset(oid, '\n');
      TrimSubset(rest, '\n');
      match Cut(Trim(rest), ':')
      case None =>
      case Some((kind, v)) =>
        TrimIsTrimmed(kind);
        TrimIsTrimmed(v);
        PartsWithin(Trim(rest), ':', '\n');
        TrimSubset(kind, ':');
        TrimSubset(kind, '\n');
        TrimSubset(v, '\n');
  }

  lemma PartsWithin(s: string, sep: char, c: char)
    requires c !in s && Cut(s, sep).Some?
    ensures c !in Cut(s, sep).value.0 && c !in Cut(s, sep).value.1
  {
    hide Cut;
    var parts := Cut(s, sep).value;
    assert forall x | x in parts.0 :: x in s;
    assert forall x | x in parts.1 :: x in s;
  }

  lemma {:induction false} EntriesOfPrinted(entries: seq<Entry>)
    requires forall e | e in entries :: Printable(e)
    ensures Entries(PrintAll(entries)) == entries
    ensures forall line | line in PrintAll(entries) :: '\n' !in line
  {
    hide ParseLine, Print, Printable;
    if entries != [] {
      var n := |entries| - 1;
      EntriesOfPrinted(entries[..n]);
      LineRoundTrip(entries[n]);
      assert PrintAll(entries)[..n] == PrintAll(entries[..n]) by { PrintAllLength(entries[..n]); }
      assert entries == entries[..n] + [entries[n]];
    }
  }

  lemma {:induction false} PrintAllLength(entries: seq<Entry>)
    ensures |PrintAll(entries)| == |entries|
  {
    if entries != [] {
      PrintAllLength(entries[..|entries| - 1]);
    }
  }

  lemma {:induction false} EntriesPrintable(lines: seq<string>)
    requires forall line | line in lines :: '\n' !in line
    ensures forall e | e in Entries(lines) :: Printable(e)
  {
    hide ParseLine, Printable;
    if lines != [] {
      EntriesPrintable(lines[..|lines| - 1]);
      ParsedPrintable(lines[|lines| - 1]);
    }
  }

  lemma {:induction false} SplitFree(s: string, sep: char)
    ensures forall part | part in Split(s, sep) :: sep !in part
  {
    if s != "" {
      SplitFree(s[1..], sep);
    }
  }

  lemma LastLineEmpty(lines: seq<string>)
    ensures Entries(lines + [""]) == Entries(lines)
  {
    assert (lines + [""])[..|lines|] == lines;
    TrimOfTrimmed("");
  }

  function Printed(entries: seq<Entry>): string { Lines(PrintAll(entries)) }

  /** Printing entries and parsing the text gives the entries back exactly when each of them is printable. */
  lemma {:induction false} WalkRoundTrip(entries: seq<Entry>)
    ensures Entries(Split(Printed(entries), '\n')) == entries <==> forall e | e in entries :: Printable(e)
  {
    hide Printable, Print;
    SplitFree(Printed(entries), '\n');
    EntriesPrintable(Split(Printed(entries), '\n'));
    if forall e | e in entries :: Printable(e) {
      EntriesOfPrinted(entries);
      SplitOfLines(PrintAll(entries));
      LastLineEmpty(PrintAll(entries));
    }
  }

  /** Parsing any output, printing the entries and parsing again changes nothing. */
  lemma {:induction false} Reparse(output: string)
    ensures var entries := Entries(Split(output, '\n'));
            Entries(Split(Printed(entries), '\n')) == entries
  {
    hide Printable, Print;
    SplitFree(output, '\n');
    var entries := Entries(Split(output, '\n'));
    EntriesPrintable(Split(output, '\n'));
    EntriesOfPrinted(entries);
    WalkRoundTrip(entries);
  }
}
