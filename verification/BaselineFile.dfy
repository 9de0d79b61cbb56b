/** The baseline files of the ratchets, written and read back: scripts/one_way_check.py,
    scripts/shared_surface_check.py, scripts/scaffold_check.py. */
module BaselineFile {
  import opened Text
  import opened Decimal
  import Wrap

  /** The four files: counts of raw calls, of architecture names and of gated sites, and milestones. */
  datatype Format = OneWay | Names | Sites | Scaffold

  /** `int` and `str.isdigit` as the readers use them. */
  datatype Numerals = Numerals(toInt: string -> Option<int>, isDigits: string -> bool)

  ghost predicate Lawful(num: Numerals) {
    forall n: nat :: num.toInt(ToDec(n)) == Some(n) && num.isDigits(ToDec(n))
  }

  type Entry = (string, nat)

  /** What a line of the file gives: nothing, an entry, or an error that stops the reader. */
  datatype Reading = Skip | Read(name: string, count: int) | Bad

  // --- writing ---

  function Fill(width: int, used: nat): string { if used < width then Spaces(width - used) else "" }

  function Width(f: Format): int { if f == Sites then 4 else 5 }

  function PrintEntry(f: Format, name: string, n: nat): string {
    if f == Scaffold then name + Fill(14, |name|) + " " + ToDec(n)
    else Fill(Width(f), |ToDec(n)|) + ToDec(n) + Spaces(2) + name
  }

  function PrintEntries(f: Format, entries: seq<Entry>): (r: seq<string>)
    ensures |r| == |entries|
  {
    seq(|entries|, i requires 0 <= i < |entries| => PrintEntry(f, entries[i].0, entries[i].1))
  }

  /** The file: comment lines, one line an entry, each line ended. */
  function PrintFile(f: Format, header: seq<string>, entries: seq<Entry>): string {
    Unlines(FileLines(f, header, entries))
  }

  // --- reading ---

  /** `s.split("#", 1)[0]` */
  function BeforeHash(s: string): string {
    if s == "" || s[0] == '#' then "" else [s[0]] + BeforeHash(s[1..])
  }

  /** A stripped line as a count and a name. */
  function ReadCount(num: Numerals, s: string): Reading {
    var k := Wrap.RunLength(s);
    var name := LStrip(s[k..]);
    if name == "" then Bad
    else match num.toInt(s[..k]) case None => Bad case Some(n) => Read(name, n)
  }

  function ReadLine(f: Format, num: Numerals, line: string): Reading {
    match f
    case OneWay =>
      var s := Strip(line);
      if s == "" || s[0] == '#' then Skip else ReadCount(num, s)
    case Names =>
      var s := Strip(BeforeHash(line));
      if s == "" then Skip else ReadCount(num, s)
    case Sites =>
      var s := Strip(BeforeHash(line));
      var k := Wrap.RunLength(s);
      if LStrip(s[k..]) != "" && num.isDigits(s[..k]) then ReadCount(num, s) else Skip
    case Scaffold =>
      var parts := Wrap.Words(Strip(BeforeHash(line)));
      if |parts| != 2 then Skip
      else match num.toInt(parts[1]) case None => Bad case Some(n) => Read(parts[0], n)
  }

  function Put(base: Option<map<string, int>>, r: Reading): Option<map<string, int>> {
    if base.None? then None
    else match r
      case Skip => base
      case Bad => None
      case Read(name, n) => Some(base.value[name := n])
  }

  function ReadLines(f: Format, num: Numerals, lines: seq<string>): Option<map<string, int>> {
    if lines == [] then Some(map[])
    else Put(ReadLines(f, num, lines[..|lines| - 1]), ReadLine(f, num, lines[|lines| - 1]))
  }

  /** `load_baseline` and its relatives, on a file opened as text; `None` when a line raises. */
  function ReadFile(f: Format, num: Numerals, text: string): Option<map<string, int>> {
    ReadLines(f, num, Lines(Universal(text)))
  }

  method LoadBaseline(f: Format, num: Numerals, text: string) returns (base: Option<map<string, int>>)
    ensures base == ReadFile(f, num, text)
  {
    var lines := Lines(Universal(text));
    base := Some(map[]);
    for i := 0 to |lines|
      invariant base == ReadLines(f, num, lines[..i])
    {
      assert lines[..i + 1][..i] == lines[..i];
      base := Put(base, ReadLine(f, num, lines[i]));
    }
    assert lines[..|lines|] == lines;
  }

  // --- one line ---

  lemma {:induction false} BeforeHashConcat(a: string, b: string)
    requires '#' !in a
    ensures BeforeHash(a + b) == a + BeforeHash(b)
  {
    if a == "" {
      assert a + b == b;
    } else {
      assert (a + b)[1..] == a[1..] + b;
      BeforeHashConcat(a[1..], b);
    }
  }

  lemma {:induction false} BeforeHashHasNone(s: string)
    ensures '#' !in BeforeHash(s)
    ensures '#' !in s ==> BeforeHash(s) == s
  {
    if s != "" && s[0] != '#' { BeforeHashHasNone(s[1..]); }
  }

  lemma DigitsShow(n: nat)
    ensures var d := ToDec(n); '#' !in d && NEWLINE !in d && Wrap.IsWord(d) && d[0] != '#'
  {
    assert forall i :: 0 <= i < |ToDec(n)| ==> IsDigit(ToDec(n)[i]);
  }

  lemma {:induction false} RStripTail(a: string, b: string)
    requires a != "" && !IsSpace(a[|a| - 1])
    ensures RStrip(a + b) == a + RStrip(b)
  {
    if b == "" {
      assert a + b == a;
    } else {
      assert (a + b)[..|a + b| - 1] == a + b[..|b| - 1];
      if IsSpace(b[|b| - 1]) { RStripTail(a, b[..|b| - 1]); }
    }
  }

  lemma {:induction false} RStripLead(k: nat, b: string)
    ensures RStrip(Spaces(k) + b) == if RStrip(b) == "" then "" else Spaces(k) + RStrip(b)
  {
    if b == "" {
      assert Spaces(k) + b == Spaces(k);
      RStripBlank(Spaces(k));
    } else if IsSpace(b[|b| - 1]) {
      assert (Spaces(k) + b)[..|Spaces(k) + b| - 1] == Spaces(k) + b[..|b| - 1];
      RStripLead(k, b[..|b| - 1]);
    }
  }

  /** What stripping leaves of a padded number, a gap and a tail. */
  lemma StripCount(pad: nat, d: string, tail: string)
    requires Wrap.IsWord(d)
    ensures Strip(Spaces(pad) + d + Spaces(2) + tail) ==
            if RStrip(tail) == "" then d else d + (Spaces(2) + RStrip(tail))
  {
    assert Spaces(pad) + d + Spaces(2) + tail == Spaces(pad) + (d + (Spaces(2) + tail));
    LStripSpaces(Spaces(pad), d + (Spaces(2) + tail));
    RStripTail(d, Spaces(2) + tail);
    RStripLead(2, tail);
    assert d + "" == d;
  }

  lemma {:induction false} RunOfWord(d: string, b: string)
    requires Wrap.IsWord(d) && (b == "" || IsSpace(b[0]))
    ensures Wrap.RunLength(d + b) == |d|
  {
    if |d| == 1 {
      assert (d + b)[1..] == b;
    } else {
      assert (d + b)[1..] == d[1..] + b;
      RunOfWord(d[1..], b);
    }
  }

  /** A padded number, a gap and a tail read back as the number and the tail stripped. */
  lemma CountReads(num: Numerals, pad: nat, n: nat, tail: string)
    requires Lawful(num)
    ensures var s := Strip(Spaces(pad) + ToDec(n) + Spaces(2) + tail);
            && s != "" && s[0] != '#' && s[..Wrap.RunLength(s)] == ToDec(n)
            && LStrip(s[Wrap.RunLength(s)..]) == LStrip(RStrip(tail))
            && ReadCount(num, s) == if RStrip(tail) == "" then Bad else Read(LStrip(RStrip(tail)), n)
  {
    var d := ToDec(n);
    DigitsShow(n);
    StripCount(pad, d, tail);
    var t := RStrip(tail);
    var rest := if t == "" then "" else Spaces(2) + t;
    assert d + "" == d;
    var s := d + rest;
    RunOfWord(d, rest);
    assert s[..|d|] == d && s[|d|..] == rest;
    if t != "" {
      LStripSpaces(Spaces(2), t);
      RStripSplit(tail);
      LStripVisible(t);
    }
  }

  lemma {:induction false} LStripVisible(t: string)
    requires t != "" && !IsSpace(t[|t| - 1])
    ensures LStrip(t) != ""
  {
    if IsSpace(t[0]) { LStripVisible(t[1..]); }
  }

  predicate Trim(name: string) { name != "" && !IsSpace(name[0]) && !IsSpace(name[|name| - 1]) }

  /** The names a line of the file carries faithfully. */
  predicate LineGood(f: Format, name: string) {
    match f
    case OneWay => Trim(name)
    case Names | Sites => Trim(name) && '#' !in name
    case Scaffold => Wrap.IsWord(name) && '#' !in name
  }

  lemma TrimIsFixed(name: string)
    ensures name != "" && LStrip(RStrip(name)) == name <==> Trim(name)
    ensures RStrip(name) == "" ==> !Trim(name)
  {
    RStripSplit(name);
    LStripSplit(RStrip(name));
  }

  lemma CountLineReads(f: Format, num: Numerals, name: string, n: nat)
    requires Lawful(num) && f != Scaffold
    ensures var shown := if f == OneWay then name else BeforeHash(name);
            ReadLine(f, num, PrintEntry(f, name, n)) ==
            if RStrip(shown) == "" then (if f == Sites then Skip else Bad) else Read(LStrip(RStrip(shown)), n)
  {
    var lead := Fill(Width(f), |ToDec(n)|);
    DigitsShow(n);
    assert lead == Spaces(|lead|);
    CountReads(num, |lead|, n, name);
    CountReads(num, |lead|, n, BeforeHash(name));
    BeforeHashConcat(lead + ToDec(n) + Spaces(2), name);
  }

  /** A line carries a count and a name back exactly when the name is one it can carry. */
  lemma PrintedCountReads(f: Format, num: Numerals, name: string, n: nat)
    requires Lawful(num) && f != Scaffold
    ensures ReadLine(f, num, PrintEntry(f, name, n)) == Read(name, n) <==> LineGood(f, name)
  {
    CountLineReads(f, num, name, n);
    var shown := if f == OneWay then name else BeforeHash(name);
    BeforeHashHasNone(name);
    TrimIsFixed(shown);
    if f != OneWay && '#' in name {
      LStripSplit(RStrip(shown));
      RStripSplit(shown);
      assert '#' !in LStrip(RStrip(shown));
    }
  }

  // --- milestone lines ---

  lemma {:induction false} WordsOfStripped(s: string)
    ensures Wrap.Words(Strip(s)) == Wrap.Words(s)
  {
    WordsOfLStripped(s);
    WordsOfRStripped(LStrip(s));
  }

  lemma {:induction false} WordsOfLStripped(s: string)
    ensures Wrap.Words(LStrip(s)) == Wrap.Words(s)
  {
    if s != "" && IsSpace(s[0]) { WordsOfLStripped(s[1..]); }
  }

  lemma {:induction false} WordsOfRStripped(s: string)
    ensures Wrap.Words(RStrip(s)) == Wrap.Words(s)
  {
    if s != "" && IsSpace(s[|s| - 1]) {
      var init := s[..|s| - 1];
      WordsOfRStripped(init);
      Wrap.WordsAround(init, s[|s| - 1], "");
      assert s == init + [s[|s| - 1]] + "";
    }
  }

  lemma {:induction false} WordsPadded(s: string, k: nat)
    ensures Wrap.Words(s + Spaces(k)) == Wrap.Words(s)
  {
    if k == 0 {
      assert s + Spaces(k) == s;
    } else {
      assert s + Spaces(k) == (s + Spaces(k - 1)) + [' '] + "";
      Wrap.WordsAround(s + Spaces(k - 1), ' ', "");
      WordsPadded(s, k - 1);
    }
  }

  lemma {:induction false} WordsWithout(s: string, c: char, i: nat)
    requires c !in s && i < |Wrap.Words(s)|
    ensures c !in Wrap.Words(s)[i]
    decreases |s|
  {
    if IsSpace(s[0]) {
      WordsWithout(s[1..], c, i);
    } else if i > 0 {
      WordsWithout(s[Wrap.RunLength(s)..], c, i - 1);
    }
  }

  lemma MilestoneWords(name: string, n: nat)
    ensures Wrap.Words(PrintEntry(Scaffold, name, n)) == Wrap.Words(name) + [ToDec(n)]
  {
    var pad := Fill(14, |name|);
    DigitsShow(n);
    assert pad == Spaces(|pad|);
    Wrap.WordsAround(name + pad, ' ', ToDec(n));
    WordsPadded(name, |pad|);
    Wrap.WordsOfWord(ToDec(n));
  }

  lemma PrintedMilestoneReads(num: Numerals, name: string, n: nat)
    requires Lawful(num)
    ensures ReadLine(Scaffold, num, PrintEntry(Scaffold, name, n)) == Read(name, n) <==> LineGood(Scaffold, name)
  {
    var line := PrintEntry(Scaffold, name, n);
    var shown := BeforeHash(line);
    BeforeHashHasNone(line);
    WordsOfStripped(shown);
    MilestoneWords(name, n);
    Wrap.WordsAreWords(name);
    DigitsShow(n);
    if '#' in name {
      if |Wrap.Words(shown)| == 2 { WordsWithout(shown, '#', 0); }
    } else {
      assert '#' !in line;
      if Wrap.IsWord(name) { Wrap.WordsOfWord(name); }
    }
  }

  // --- the file ---

  lemma PrintedReads(f: Format, num: Numerals, name: string, n: nat)
    requires Lawful(num)
    ensures ReadLine(f, num, PrintEntry(f, name, n)) == Read(name, n) <==> LineGood(f, name)
  {
    if f == Scaffold { PrintedMilestoneReads(num, name, n); } else { PrintedCountReads(f, num, name, n); }
  }

  /** A text the readers take for one line. */
  predicate OneLine(s: string) { NEWLINE !in s && '\r' !in s }

  predicate Comment(line: string) { (line == "" || line[0] == '#') && OneLine(line) }

  predicate Comments(lines: seq<string>) { forall i :: 0 <= i < |lines| ==> Comment(lines[i]) }

  lemma CommentSkipped(f: Format, num: Numerals, line: string)
    requires Comment(line)
    ensures ReadLine(f, num, line) == Skip
  {
    assert BeforeHash(line) == "" && Strip("") == "" && Wrap.Words("") == [];
    assert LStrip(line) == line;
    RStripSplit(line);
    if line != "" && Strip(line) != "" { assert Strip(line)[0] == line[0]; }
  }

  /** A name a line carries faithfully, on one line. */
  predicate Good(f: Format, name: string) { LineGood(f, name) && OneLine(name) }

  /** Names the file carries faithfully, one entry each. */
  predicate Carried(f: Format, entries: seq<Entry>) {
    forall i :: 0 <= i < |entries| ==> Good(f, entries[i].0)
  }

  function ToMap(entries: seq<Entry>): map<string, int> {
    if entries == [] then map[]
    else ToMap(entries[..|entries| - 1])[entries[|entries| - 1].0 := entries[|entries| - 1].1]
  }

  lemma {:induction false} HeaderReads(f: Format, num: Numerals, header: seq<string>)
    requires Comments(header)
    ensures ReadLines(f, num, header) == Some(map[])
  {
    if header != [] {
      HeaderReads(f, num, header[..|header| - 1]);
      CommentSkipped(f, num, header[|header| - 1]);
    }
  }

  lemma ReadSnoc(f: Format, num: Numerals, lines: seq<string>, line: string)
    ensures ReadLines(f, num, lines + [line]) == Put(ReadLines(f, num, lines), ReadLine(f, num, line))
  {
    assert (lines + [line])[..|lines|] == lines;
  }

  lemma ReadEntry(f: Format, num: Numerals, lines: seq<string>, e: Entry, base: map<string, int>)
    requires Lawful(num) && LineGood(f, e.0) && ReadLines(f, num, lines) == Some(base)
    ensures ReadLines(f, num, lines + [PrintEntry(f, e.0, e.1)]) == Some(base[e.0 := e.1])
  {
    ReadSnoc(f, num, lines, PrintEntry(f, e.0, e.1));
    PrintedReads(f, num, e.0, e.1);
  }

  lemma PrintedSnoc(f: Format, header: seq<string>, entries: seq<Entry>, e: Entry)
    ensures header + PrintEntries(f, entries + [e]) == header + PrintEntries(f, entries) + [PrintEntry(f, e.0, e.1)]
  {
  }

  /** One more entry behind what has been read. */
  lemma EntryReads(f: Format, num: Numerals, header: seq<string>, init: seq<Entry>, last: Entry)
    requires Lawful(num) && LineGood(f, last.0)
    requires ReadLines(f, num, header + PrintEntries(f, init)) == Some(ToMap(init))
    ensures ReadLines(f, num, header + PrintEntries(f, init + [last])) == Some(ToMap(init + [last]))
  {
    PrintedSnoc(f, header, init, last);
    ReadEntry(f, num, header + PrintEntries(f, init), last, ToMap(init));
    assert (init + [last])[..|init|] == init;
  }

  lemma CarriedSplit(f: Format, init: seq<Entry>, last: Entry)
    requires Carried(f, init + [last])
    ensures Carried(f, init) && LineGood(f, last.0)
  {
    var all := init + [last];
    assert all[|init|] == last;
    forall i | 0 <= i < |init| ensures Good(f, init[i].0) { assert all[i] == init[i]; }
  }

  lemma {:induction false} EntriesRead(f: Format, num: Numerals, header: seq<string>, entries: seq<Entry>)
    requires Lawful(num) && Comments(header) && Carried(f, entries)
    ensures ReadLines(f, num, header + PrintEntries(f, entries)) == Some(ToMap(entries))
    decreases |entries|
  {
    if entries == [] {
      assert header + PrintEntries(f, entries) == header;
      HeaderReads(f, num, header);
    } else {
      var init, last := entries[..|entries| - 1], entries[|entries| - 1];
      assert entries == init + [last];
      CarriedSplit(f, init, last);
      EntriesRead(f, num, header, init);
      EntryReads(f, num, header, init, last);
    }
  }

  lemma PrintedIsOneLine(f: Format, name: string, n: nat)
    requires OneLine(name)
    ensures OneLine(PrintEntry(f, name, n))
  {
    DigitsShow(n);
    assert forall i :: 0 <= i < |ToDec(n)| ==> IsDigit(ToDec(n)[i]);
  }

  predicate OneLines(lines: seq<string>) { forall i :: 0 <= i < |lines| ==> OneLine(lines[i]) }

  /** The lines of a written file, with the empty one behind the last line end. */
  function FileLines(f: Format, header: seq<string>, entries: seq<Entry>): seq<string> {
    header + PrintEntries(f, entries) + [""]
  }

  lemma FileIsOneLines(f: Format, header: seq<string>, entries: seq<Entry>)
    requires Comments(header) && Carried(f, entries)
    ensures OneLines(FileLines(f, header, entries))
  {
    var lines := FileLines(f, header, entries);
    forall i | 0 <= i < |lines|
      ensures OneLine(lines[i])
    {
      if i < |header| {
        assert Comment(header[i]) && lines[i] == header[i];
      } else if i < |header| + |entries| {
        assert lines[i] == PrintEntry(f, entries[i - |header|].0, entries[i - |header|].1);
        PrintedIsOneLine(f, entries[i - |header|].0, entries[i - |header|].1);
      }
    }
  }

  /** Lines without breaks inside, joined and read as a file, come apart again. */
  lemma OneLinesRead(lines: seq<string>)
    requires lines != [] && OneLines(lines)
    ensures Lines(Universal(Unlines(lines))) == lines
  {
    UnlinesHold(lines, '\r');
    UniversalHasNone(Unlines(lines));
    LinesUnlines(lines);
  }

  lemma CarriedReads(f: Format, num: Numerals, header: seq<string>, entries: seq<Entry>)
    requires Lawful(num) && Comments(header) && Carried(f, entries)
    ensures ReadFile(f, num, PrintFile(f, header, entries)) == Some(ToMap(entries))
  {
    FileIsOneLines(f, header, entries);
    OneLinesRead(FileLines(f, header, entries));
    EntriesRead(f, num, header, entries);
    ReadSnoc(f, num, header + PrintEntries(f, entries), "");
    CommentSkipped(f, num, "");
  }

  // --- every name read is one the file can carry ---

  lemma NameOfCount(num: Numerals, s: string)
    requires s != "" && !IsSpace(s[|s| - 1]) && ReadCount(num, s).Read?
    ensures Trim(ReadCount(num, s).name) && forall c :: c in ReadCount(num, s).name ==> c in s
  {
    var t := s[Wrap.RunLength(s)..];
    LStripSplit(t);
    assert t != "" && LStrip(t) == t[|t| - |LStrip(t)|..];
  }

  lemma StripInside(s: string)
    ensures forall c :: c in Strip(s) ==> c in s
    ensures Strip(s) == "" || !IsSpace(Strip(s)[|Strip(s)| - 1])
  {
    LStripSplit(s);
    RStripSplit(LStrip(s));
  }

  lemma {:induction false} BeforeHashInside(s: string)
    ensures forall c :: c in BeforeHash(s) ==> c in s
  {
    if s != "" && s[0] != '#' { BeforeHashInside(s[1..]); }
  }

  lemma CountLineIsGood(f: Format, num: Numerals, line: string, shown: string)
    requires f != Scaffold && shown == (if f == OneWay then line else BeforeHash(line))
    requires ReadLine(f, num, line).Read? && OneLine(line)
    ensures Good(f, ReadLine(f, num, line).name)
  {
    var s := Strip(shown);
    StripInside(shown);
    BeforeHashInside(line);
    BeforeHashHasNone(line);
    NameOfCount(num, s);
  }

  lemma MilestoneLineIsGood(num: Numerals, line: string)
    requires ReadLine(Scaffold, num, line).Read? && OneLine(line)
    ensures Good(Scaffold, ReadLine(Scaffold, num, line).name)
  {
    var s := Strip(BeforeHash(line));
    StripInside(BeforeHash(line));
    BeforeHashInside(line);
    BeforeHashHasNone(line);
    Wrap.WordsAreWords(s);
    WordsWithout(s, '#', 0);
    WordsWithout(s, NEWLINE, 0);
    WordsWithout(s, '\r', 0);
  }

  lemma {:induction false} KeysAreGood(f: Format, num: Numerals, lines: seq<string>)
    requires ReadLines(f, num, lines).Some? && forall i :: 0 <= i < |lines| ==> OneLine(lines[i])
    ensures forall name :: name in ReadLines(f, num, lines).value ==> Good(f, name)
  {
    if lines != [] {
      var line := lines[|lines| - 1];
      KeysAreGood(f, num, lines[..|lines| - 1]);
      if ReadLine(f, num, line).Read? {
        if f == Scaffold {
          MilestoneLineIsGood(num, line);
        } else {
          CountLineIsGood(f, num, line, if f == OneWay then line else BeforeHash(line));
        }
      }
    }
  }

  /** A name read from a file is one the file can carry. */
  lemma NamesReadAreGood(f: Format, num: Numerals, text: string)
    requires ReadFile(f, num, text).Some?
    ensures forall name :: name in ReadFile(f, num, text).value ==> Good(f, name)
  {
    UniversalHasNone(text);
    LinesHaveNoNewline(Universal(text));
    LinesHold(Universal(text), '\r');
    KeysAreGood(f, num, Lines(Universal(text)));
  }

  lemma {:induction false} ToMapKeys(entries: seq<Entry>)
    ensures forall i :: 0 <= i < |entries| ==> entries[i].0 in ToMap(entries)
  {
    if entries != [] {
      var init := entries[..|entries| - 1];
      ToMapKeys(init);
      assert forall i :: 0 <= i < |init| ==> entries[i] == init[i];
    }
  }

  /** Reading a written baseline gives back what was recorded, if and only if every name is one its format
      can carry. */
  lemma FileRoundTrips(f: Format, num: Numerals, header: seq<string>, entries: seq<Entry>)
    requires Lawful(num) && Comments(header)
    ensures ReadFile(f, num, PrintFile(f, header, entries)) == Some(ToMap(entries)) <==> Carried(f, entries)
  {
    var text := PrintFile(f, header, entries);
    if Carried(f, entries) { CarriedReads(f, num, header, entries); }
    if ReadFile(f, num, text) == Some(ToMap(entries)) {
      NamesReadAreGood(f, num, text);
      ToMapKeys(entries);
    }
  }
}
