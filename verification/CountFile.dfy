/** The failed-audit count file: one `<episode> <count>` line an entry, read so that one bad line
    costs only itself. Source: server/src/audit.rs. */
module CountFile {
  import opened Wrappers
  import opened Seqs

  const U64_MAX: nat := 0xFFFF_FFFF_FFFF_FFFF

  datatype Entry = Entry(key: string, count: nat)

  /** What the count file holds. */
  datatype Counts = Absent | Clean(entries: seq<Entry>) | Corrupt(entries: seq<Entry>)

  predicate Hex(c: char) { '0' <= c <= '9' || 'a' <= c <= 'f' }
  predicate Digit(c: char) { '0' <= c <= '9' }

  predicate AllHex(s: string) { forall i | 0 <= i < |s| :: Hex(s[i]) }
  predicate AllDigits(s: string) { forall i | 0 <= i < |s| :: Digit(s[i]) }

  /** `txn-<hex>` or `record-<hex>`. */
  predicate ValidKey(key: string) {
    || (|key| > 4 && key[..4] == ['t', 'x', 'n', '-'] && AllHex(key[4..]))
    || (|key| > 7 && key[..7] == ['r', 'e', 'c', 'o', 'r', 'd', '-'] && AllHex(key[7..]))
  }

  predicate ValidEntry(e: Entry) { ValidKey(e.key) && e.count <= U64_MAX }

  // -------------------------------------------------------------- numbers ----

  function Decimal(n: nat): (s: string)
    ensures s != [] && AllDigits(s)
  {
    if n < 10 then [('0' as int + n) as char] else Decimal(n / 10) + [('0' as int + n % 10) as char]
  }

  function Value(s: string): nat
    requires AllDigits(s)
  {
    if s == [] then 0 else Value(s[..|s| - 1]) * 10 + (s[|s| - 1] as int - '0' as int)
  }

  lemma {:induction false} ValueOfDecimal(n: nat)
    ensures Value(Decimal(n)) == n
  {
    if n >= 10 {
      ValueOfDecimal(n / 10);
      assert Decimal(n)[..|Decimal(n)| - 1] == Decimal(n / 10);
    }
  }

  // ---------------------------------------------------------------- lines ----

  /** Where `c` first stands in `s`, or the end. */
  function Find(s: string, c: char): (i: nat)
    ensures i <= |s| && (i < |s| ==> s[i] == c) && forall j | 0 <= j < i :: s[j] != c
  {
    if s == [] || s[0] == c then 0 else 1 + Find(s[1..], c)
  }

  /** The text between line feeds; a last line feed ends the last line and begins none. */
  function Lines(text: string): seq<string> {
    if text == [] then []
    else
      var i := Find(text, '\n');
      if i == |text| then [text] else [text[..i]] + Lines(text[i + 1..])
  }

  function ParseLine(raw: string): Option<Entry> {
    var line := if raw != [] && raw[|raw| - 1] == '\r' then raw[..|raw| - 1] else raw;
    var i := Find(line, ' ');
    if i == |line| then None
    else
      var key, count := line[..i], line[i + 1..];
      if ValidKey(key) && count != [] && AllDigits(count) && Value(count) <= U64_MAX then Some(Entry(key, Value(count))) else None
  }

  function Entries(e: Option<Entry>): seq<Entry> { if e.Some? then [e.value] else [] }

  function Understood(lines: seq<string>): seq<Entry> {
    if lines == [] then []
    else
      Understood(lines[..|lines| - 1]) + Entries(ParseLine(lines[|lines| - 1]))
  }

  predicate AllUnderstood(lines: seq<string>) { forall i | 0 <= i < |lines| :: ParseLine(lines[i]).Some? }

  function Parse(text: string): Counts {
    var lines := Lines(text);
    if lines != [] && AllUnderstood(lines) then Clean(Understood(lines)) else Corrupt(Understood(lines))
  }

  lemma LinesFrom(text: string)
    requires text != []
    ensures var i := Find(text, '\n');
            Lines(text) == if i == |text| then [text] else [text[..i]] + Lines(text[i + 1..])
  {
    hide Find;
  }

  lemma NoLines()
    ensures Lines([]) == []
  {
  }

  method SplitLines(text: string) returns (lines: seq<string>)
    ensures lines == Lines(text)
  {
    hide Lines;
    lines := [];
    var rest := text;
    assert lines + Lines(rest) == Lines(text);
    while rest != []
      invariant lines + Lines(rest) == Lines(text)
      decreases |rest|
    {
      var i := Find(rest, '\n');
      LinesFrom(rest);
      if i == |rest| {
        return lines + [rest];
      }
      Assoc(lines, [rest[..i]], Lines(rest[i + 1..]));
      lines, rest := lines + [rest[..i]], rest[i + 1..];
    }
    assert Lines(rest) == [] by {
      NoLines();
    }
  }

  method ParseCounts(text: string) returns (r: Counts)
    ensures r == Parse(text)
  {
    hide ParseLine, Lines;
    var lines := SplitLines(text);
    var valid: seq<Entry> := [];
    var clean := lines != [];
    for n := 0 to |lines|
      invariant valid == Understood(lines[..n])
      invariant clean <==> lines != [] && AllUnderstood(lines[..n])
    {
      var e := ParseLine(lines[n]);
      assert lines[..n + 1][..n] == lines[..n];
      if e.Some? {
        valid := valid + [e.value];
      } else {
        assert ParseLine(lines[..n + 1][n]).None?;
        clean := false;
      }
    }
    assert lines[..|lines|] == lines;
    return if clean then Clean(valid) else Corrupt(valid);
  }

  // ------------------------------------------------------------- printing ----

  function LineOf(e: Entry): string { e.key + [' '] + Decimal(e.count) }

  /** The file text; `cr[i]` puts a carriage return before the i-th line feed. */
  function PrintWith(entries: seq<Entry>, cr: seq<bool>): string
    requires |cr| == |entries|
  {
    if entries == [] then []
    else LineOf(entries[0]) + (if cr[0] then ['\r', '\n'] else ['\n']) + PrintWith(entries[1..], cr[1..])
  }

  function Print(entries: seq<Entry>): string {
    PrintWith(entries, seq(|entries|, _ => false))
  }

  lemma KeyHasNoBreak(key: string)
    requires ValidKey(key)
    ensures ' ' !in key && '\n' !in key && '\r' !in key
  {
    if key[..4] == ['t', 'x', 'n', '-'] && AllHex(key[4..]) {
      assert key == key[..4] + key[4..];
    } else {
      assert key == key[..7] + key[7..];
    }
  }

  lemma ParsedLine(key: string, count: string, cr: bool)
    requires ' ' !in key && count != [] && AllDigits(count)
    ensures var raw := key + [' '] + count + if cr then ['\r'] else [];
            ParseLine(raw) == if ValidKey(key) && Value(count) <= U64_MAX then Some(Entry(key, Value(count))) else None
  {
    hide ValidKey, Value;
    var line := key + [' '] + count;
    var raw := line + if cr then ['\r'] else [];
    assert line[|key| + 1..] == count && line[..|key|] == key;
    assert Digit(line[|line| - 1]) by { assert line[|line| - 1] == count[|count| - 1]; }
    assert cr ==> raw[..|raw| - 1] == line;
    assert !cr ==> raw == line;
    assert line[|key|] == ' ';
    assert forall i | 0 <= i < |key| :: line[i] == key[i];
    assert Find(line, ' ') == |key|;
  }

  lemma LineReadsBack(e: Entry, cr: bool)
    requires ValidEntry(e)
    ensures var raw := LineOf(e) + if cr then ['\r'] else [];
            ParseLine(raw) == Some(e) && '\n' !in raw
  {
    hide ParseLine, ValidKey, Value, Decimal;
    KeyHasNoBreak(e.key);
    ValueOfDecimal(e.count);
    ParsedLine(e.key, Decimal(e.count), cr);
    assert '\n' !in Decimal(e.count);
  }

  lemma LinesOfFirst(line: string, rest: string)
    requires '\n' !in line
    ensures Lines(line + ['\n'] + rest) == [line] + Lines(rest)
  {
    var text := line + ['\n'] + rest;
    assert text[|line|] == '\n';
    assert forall i | 0 <= i < |line| :: text[i] == line[i];
    assert Find(text, '\n') == |line|;
    assert text[..|line|] == line && text[|line| + 1..] == rest;
  }

  lemma UnderstoodLast(lines: seq<string>)
    requires lines != []
    ensures Understood(lines) == Understood(lines[..|lines| - 1]) + Entries(ParseLine(lines[|lines| - 1]))
  {
    hide ParseLine;
  }

  lemma {:induction false} UnderstoodConcat(a: seq<string>, b: seq<string>)
    ensures Understood(a + b) == Understood(a) + Understood(b)
  {
    hide ParseLine;
    if b == [] {
      assert a + b == a;
    } else {
      var n := |b| - 1;
      UnderstoodConcat(a, b[..n]);
      UnderstoodLast(b);
      UnderstoodLast(a + b);
      hide Understood;
      assert (a + b)[..|a + b| - 1] == a + b[..n];
      Assoc(Understood(a), Understood(b[..n]), Entries(ParseLine(b[n])));
    }
  }

  lemma UnderstoodFirst(line: string, lines: seq<string>)
    ensures Understood([line] + lines) == Entries(ParseLine(line)) + Understood(lines)
  {
    hide ParseLine;
    UnderstoodConcat([line], lines);
    assert [line][..0] == [] && Understood([]) == [];
    UnderstoodLast([line]);
    hide Understood;
    assert [] + Entries(ParseLine(line)) == Entries(ParseLine(line));
  }

  /** The first printed line, without its line feed. */
  function FirstLine(e: Entry, cr: bool): string { LineOf(e) + if cr then ['\r'] else [] }

  lemma PrintFirst(entries: seq<Entry>, cr: seq<bool>)
    requires |cr| == |entries| > 0
    ensures PrintWith(entries, cr) == FirstLine(entries[0], cr[0]) + ['\n'] + PrintWith(entries[1..], cr[1..])
  {
    hide LineOf;
    var line := LineOf(entries[0]);
    assert (line + ['\r']) + ['\n'] == line + ['\r', '\n'];
    assert (line + []) + ['\n'] == line + ['\n'];
  }

  lemma FirstUnderstood(line: string, lines: seq<string>)
    requires ParseLine(line).Some? && AllUnderstood(lines)
    ensures AllUnderstood([line] + lines)
  {
  }

  lemma {:induction false} PrintReadsBackFrom(entries: seq<Entry>, cr: seq<bool>)
    requires |cr| == |entries| && forall i | 0 <= i < |entries| :: ValidEntry(entries[i])
    ensures var lines := Lines(PrintWith(entries, cr));
            |lines| == |entries| && AllUnderstood(lines) && Understood(lines) == entries
  {
    if entries != [] {
      hide ParseLine, LineOf, ValidEntry, Lines, PrintWith, Understood, FirstLine;
      PrintReadsBackFrom(entries[1..], cr[1..]);
      LineReadsBack(entries[0], cr[0]);
      PrintFirst(entries, cr);
      var raw, rest := FirstLine(entries[0], cr[0]), Lines(PrintWith(entries[1..], cr[1..]));
      LinesOfFirst(raw, PrintWith(entries[1..], cr[1..]));
      UnderstoodFirst(raw, rest);
      FirstUnderstood(raw, rest);
      FirstOf(entries);
    }
  }

  /** Printed entries read back as themselves, cleanly, with LF or CRLF at any of the lines. */
  lemma PrintReadsBack(entries: seq<Entry>, cr: seq<bool>)
    requires |cr| == |entries| && forall i | 0 <= i < |entries| :: ValidEntry(entries[i])
    ensures Parse(PrintWith(entries, cr)) == if entries == [] then Corrupt([]) else Clean(entries)
  {
    PrintReadsBackFrom(entries, cr);
  }

  lemma Cut(a: string)
    requires a != [] && a[|a| - 1] == '\n'
    ensures var i := Find(a, '\n');
            && i < |a| && a == a[..i] + ['\n'] + a[i + 1..] && '\n' !in a[..i]
            && (a[i + 1..] == [] || a[i + 1..][|a[i + 1..]| - 1] == '\n')
  {
    Around(a, Find(a, '\n'));
  }

  lemma {:induction false} LinesConcat(a: string, b: string)
    requires a == [] || a[|a| - 1] == '\n'
    ensures Lines(a + b) == Lines(a) + Lines(b)
    decreases |a|
  {
    if a == [] {
      assert a + b == b;
      assert Lines(a) == [];
    } else {
      hide Lines, Find;
      Cut(a);
      var line, rest := a[..Find(a, '\n')], a[Find(a, '\n') + 1..];
      LinesConcat(rest, b);
      LinesOfFirst(line, rest);
      LinesOfFirst(line, rest + b);
      Assoc(line + ['\n'], rest, b);
      Assoc([line], Lines(rest), Lines(b));
    }
  }

  /** A line that is not understood costs only itself: every entry of the lines around it stays. */
  lemma BadLineCostsItself(before: string, bad: string, after: string)
    requires before == [] || before[|before| - 1] == '\n'
    requires '\n' !in bad && ParseLine(bad).None?
    ensures Parse(before + bad + ['\n'] + after) == Corrupt(Parse(before).entries + Parse(after).entries)
  {
    hide ParseLine, Lines;
    LinesAround(before, bad, after);
    var a, b := Lines(before), Lines(after);
    var lines := a + ([bad] + b);
    assert lines[|a|] == bad;
    UnderstoodConcat(a, [bad] + b);
    UnderstoodFirst(bad, b);
  }

  lemma LinesAround(before: string, line: string, after: string)
    requires before == [] || before[|before| - 1] == '\n'
    requires '\n' !in line
    ensures Lines(before + line + ['\n'] + after) == Lines(before) + ([line] + Lines(after))
  {
    hide Lines;
    LinesConcat(before, line + ['\n'] + after);
    assert before + (line + ['\n'] + after) == before + line + ['\n'] + after;
    LinesOfFirst(line, after);
  }

  lemma {:induction false} UnderstoodAreValid(lines: seq<string>)
    ensures forall i | 0 <= i < |Understood(lines)| :: ValidEntry(Understood(lines)[i])
  {
    if lines != [] {
      UnderstoodAreValid(lines[..|lines| - 1]);
    }
  }

  /** Whatever the text, what is kept of it can be printed and read again. */
  lemma ParsedIsPrintable(text: string)
    ensures var kept := Parse(text).entries;
            (forall i | 0 <= i < |kept| :: ValidEntry(kept[i])) && Parse(Print(kept)).entries == kept
  {
    UnderstoodAreValid(Lines(text));
    PrintReadsBack(Parse(text).entries, seq(|Parse(text).entries|, _ => false));
  }
}
