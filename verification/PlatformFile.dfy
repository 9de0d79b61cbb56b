/** Printing the platform file and reading it back: scripts/platform_file.py. */
module PlatformFile {
  import opened Text
  import opened Decimal
  import opened Toml

  // --- strings ---

  const HEX := "0123456789abcdef"

  /** `"\\u%04x" % ord(c)`, for a character below 256. */
  function UEscape(n: nat): string
    requires n < 256
  {
    "\\u00" + [HEX[n / 16], HEX[n % 16]]
  }

  function EscapeChar(c: char): string {
    if c == '\\' then "\\\\"
    else if c == '"' then "\\\""
    else if c == '\n' then "\\n"
    else if c == '\t' then "\\t"
    else if c as int < 0x20 || c as int == 0x7F then UEscape(c as int)
    else [c]
  }

  function Escaped(s: string): string {
    if s == "" then "" else EscapeChar(s[0]) + Escaped(s[1..])
  }

  /** `_q` */
  function Quote(s: string): string { "\"" + (Escaped(s) + "\"") }

  lemma {:induction false} EscapedConcat(a: string, b: string)
    ensures Escaped(a + b) == Escaped(a) + Escaped(b)
  {
    if a == "" {
      assert a + b == b;
    } else {
      assert (a + b)[1..] == a[1..] + b;
      EscapedConcat(a[1..], b);
      assert EscapeChar(a[0]) + (Escaped(a[1..]) + Escaped(b)) == EscapeChar(a[0]) + Escaped(a[1..]) + Escaped(b);
    }
  }

  /** `_q`, piece by piece. */
  method Q(s: string) returns (r: string)
    ensures r == Quote(s)
  {
    var out := "";
    for i := 0 to |s|
      invariant out == Escaped(s[..i])
    {
      var c := s[i];
      var piece: string;
      if c == '\\' {
        piece := "\\\\";
      } else if c == '"' {
        piece := "\\\"";
      } else if c == '\n' {
        piece := "\\n";
      } else if c == '\t' {
        piece := "\\t";
      } else if c as int < 0x20 || c as int == 0x7F {
        piece := UEscape(c as int);
      } else {
        piece := [c];
      }
      EscapedConcat(s[..i], [c]);
      assert s[..i + 1] == s[..i] + [c];
      assert [c][1..] == "";
      assert Escaped([c]) == piece + "" == piece;
      out := out + piece;
    }
    assert s[..|s|] == s;
    r := "\"" + (out + "\"");
  }

  /** Hex digits read back. */
  lemma HexSnoc(s: string, c: char, n: nat, d: nat)
    requires FromHex(s) == Some(n) && HexValue(c) == Some(d)
    ensures FromHex(s + [c]) == Some(n * 16 + d)
  {
    assert (s + [c])[..|s|] == s;
  }

  lemma HexDigitReads(d: nat)
    requires d < 16
    ensures HexValue(HEX[d]) == Some(d)
  {
  }

  lemma HexPairReads(a: char, b: char, x: nat, y: nat)
    requires HexValue(a) == Some(x) && HexValue(b) == Some(y)
    ensures FromHex("00" + [a, b]) == Some(x * 16 + y)
  {
    assert FromHex("") == Some(0) && HexValue('0') == Some(0);
    HexSnoc("", '0', 0, 0);
    HexSnoc("" + ['0'], '0', 0, 0);
    HexSnoc("" + ['0'] + ['0'], a, 0, x);
    HexSnoc("" + ['0'] + ['0'] + [a], b, x, y);
    assert "00" + [a, b] == "" + ['0'] + ['0'] + [a] + [b];
  }

  lemma HexReads(n: nat)
    requires n < 256
    ensures FromHex("00" + [HEX[n / 16], HEX[n % 16]]) == Some(n)
  {
    HexDigitReads(n / 16);
    HexDigitReads(n % 16);
    HexPairReads(HEX[n / 16], HEX[n % 16], n / 16, n % 16);
  }

  /** Every escape is undone by reading one character. */
  lemma EscapeReads(c: char, rest: string)
    ensures var s := EscapeChar(c) + rest;
            && s != "" && s[0] != '"'
            && (s[0] == '\\' ==> Unescape(s[1..]) == Some((c, rest)))
            && (s[0] != '\\' ==> !IsControl(s[0]) && s[0] == c && s[1..] == rest)
            && |rest| < |s|
  {
    var e := EscapeChar(c);
    var s := e + rest;
    if (c as int < 0x20 && c != '\n' && c != '\t') || c as int == 0x7F {
      var n := c as int;
      HexReads(n);
      var h := "00" + [HEX[n / 16], HEX[n % 16]];
      assert e == "\\u" + h;
      assert s[1..] == "u" + h + rest;
      assert s[1..][1..5] == h && s[1..][5..] == rest;
    } else {
      assert s[|e|..] == rest;
    }
  }

  lemma CharReads(c: char, after: string, t: string, rest: string)
    requires ParseBasic(after) == Some((t, rest))
    ensures ParseBasic(EscapeChar(c) + after) == Some(([c] + t, rest))
  {
    EscapeReads(c, after);
  }

  lemma EscapedCons(c: char, t: string, rest: string)
    ensures Escaped([c] + t) + "\"" + rest == EscapeChar(c) + (Escaped(t) + "\"" + rest)
  {
    assert ([c] + t)[1..] == t;
  }

  /** A printed string reads back whole, wherever the text around it goes on. */
  lemma {:induction false} QuotedReads(s: string, rest: string)
    ensures ParseBasic(Escaped(s) + "\"" + rest) == Some((s, rest))
  {
    if s == "" {
      assert Escaped(s) + "\"" + rest == ['"'] + rest;
      assert (['"'] + rest)[1..] == rest;
    } else {
      QuotedReads(s[1..], rest);
      CharReads(s[0], Escaped(s[1..]) + "\"" + rest, s[1..], rest);
      EscapedCons(s[0], s[1..], rest);
      assert s == [s[0]] + s[1..];
    }
  }

  lemma BodyStart(s: string, rest: string)
    ensures var body := Escaped(s) + "\"" + rest; if s == "" then body == "\"" + rest else body[0] != '"'
  {
    if s != "" {
      var after := Escaped(s[1..]) + "\"" + rest;
      EscapeReads(s[0], after);
      assert Escaped(s) + "\"" + rest == EscapeChar(s[0]) + after;
    }
  }

  lemma StringReads(s: string, rest: string)
    requires rest == "" || rest[0] != '"'
    ensures ParseString(Quote(s) + rest) == Some((s, rest))
  {
    var all := Quote(s) + rest;
    var body := Escaped(s) + "\"" + rest;
    assert all == ['"'] + body;
    assert all[1..] == body;
    BodyStart(s, rest);
    QuotedReads(s, rest);
  }

  lemma {:induction false} EscapedHasNoNewline(s: string)
    ensures forall i :: 0 <= i < |Escaped(s)| ==> !IsControl(Escaped(s)[i]) && Escaped(s)[i] != '\t'
    ensures NEWLINE !in Escaped(s)
  {
    if s != "" {
      EscapedHasNoNewline(s[1..]);
      EscapeCharIsVisible(s[0]);
    }
  }

  lemma EscapeCharIsVisible(c: char)
    ensures forall i :: 0 <= i < |EscapeChar(c)| ==> !IsControl(EscapeChar(c)[i]) && EscapeChar(c)[i] != '\t'
  {
    if c as int < 0x20 || c as int == 0x7F {
      var n := c as int;
      assert forall d :: 0 <= d < 16 ==> !IsControl(HEX[d]) && HEX[d] != '\t';
    }
  }

  // --- arrays ---

  function QuotedList(xs: seq<string>): string {
    if xs == [] then "" else if |xs| == 1 then Quote(xs[0]) else Quote(xs[0]) + (", " + QuotedList(xs[1..]))
  }

  /** `_arr` */
  function Array(xs: seq<string>): string { "[" + (QuotedList(xs) + "]") }

  lemma SkipNone(s: string)
    requires s == "" || !IsWs(s[0])
    ensures SkipWs(s) == s
  {
  }

  lemma SkipOne(s: string)
    requires s == "" || !IsWs(s[0])
    ensures SkipWs(" " + s) == s
  {
    assert (" " + s)[1..] == s;
  }

  lemma ItemsLast(x: string, rest: string)
    ensures ParseItems(Quote(x) + ("]" + rest)) == Some(([x], rest))
  {
    var end := "]" + rest;
    var all := Quote(x) + end;
    StringReads(x, end);
    assert all[0] == '"' && end[1..] == rest;
    SkipNone(all);
    SkipNone(end);
  }

  lemma ItemsMore(x: string, s: string)
    requires ParseItems(s).Some?
    ensures ParseItems(Quote(x) + (", " + s)) == Some(([x] + ParseItems(s).value.0, ParseItems(s).value.1))
  {
    var tail := ", " + s;
    var all := Quote(x) + tail;
    StringReads(x, tail);
    assert all[0] == '"' && tail[0] == ',';
    SkipNone(all);
    SkipNone(tail);
    assert tail[1..] == " " + s;
    ItemsAfterSpace(s);
  }

  lemma ItemsAfterSpace(s: string)
    requires ParseItems(s).Some?
    ensures ParseItems(" " + s) == ParseItems(s)
  {
    assert (" " + s)[1..] == s;
    assert SkipWs(" " + s) == SkipWs(s);
  }

  lemma {:induction false} ItemsRead(xs: seq<string>, rest: string)
    ensures ParseItems(QuotedList(xs) + ("]" + rest)) == Some((xs, rest))
  {
    var end := "]" + rest;
    if xs == [] {
      assert QuotedList(xs) + end == end;
      assert end[1..] == rest;
    } else if |xs| == 1 {
      ItemsLast(xs[0], rest);
      assert xs == [xs[0]];
    } else {
      ItemsRead(xs[1..], rest);
      ItemsCons(xs[0], xs[1..], rest);
      assert [xs[0]] + xs[1..] == xs;
    }
  }

  lemma ItemsCons(x: string, xs: seq<string>, rest: string)
    requires xs != [] && ParseItems(QuotedList(xs) + ("]" + rest)) == Some((xs, rest))
    ensures ParseItems(QuotedList([x] + xs) + ("]" + rest)) == Some(([x] + xs, rest))
  {
    var more := QuotedList(xs) + ("]" + rest);
    ItemsMore(x, more);
    ListCons(x, xs);
    Nested(Quote(x), ", ", QuotedList(xs), "]" + rest);
  }

  lemma Nested(a: string, b: string, c: string, d: string)
    ensures (a + (b + c)) + d == a + (b + (c + d))
  {
  }

  lemma ListCons(x: string, xs: seq<string>)
    requires xs != []
    ensures QuotedList([x] + xs) == Quote(x) + (", " + QuotedList(xs))
  {
    assert ([x] + xs)[1..] == xs;
    assert Quote(x) + ", " + QuotedList(xs) == Quote(x) + (", " + QuotedList(xs));
  }

  // --- lines ---

  /** The three kinds of right-hand side, by the text they are printed as. */
  function PrintValue(v: Value): string {
    match v
    case Int(n) => ToDec(n)
    case Str(s) => Quote(s)
    case Arr(xs) => Array(xs)
  }

  lemma {:induction false} NoLeadingZero(n: nat)
    ensures |ToDec(n)| > 1 ==> ToDec(n)[0] != '0'
  {
    if n >= 10 {
      NoLeadingZero(n / 10);
      assert ToDec(n)[0] == ToDec(n / 10)[0];
    }
  }

  lemma ValueReads(v: Value)
    ensures ParseValue(PrintValue(v)) == Some((v, ""))
    ensures PrintValue(v) != "" && !IsWs(PrintValue(v)[0])
  {
    var s := PrintValue(v);
    match v {
      case Int(n) =>
        DigitRunStops(s, "");
        assert s + "" == s && s[..|s|] == s && s[|s|..] == "";
        NoLeadingZero(n);
        FromToDec(n);
        assert IsDigit(s[0]);
      case Str(x) =>
        StringReads(x, "");
        assert s + "" == s && s[0] == '"';
      case Arr(xs) =>
        ItemsRead(xs, "");
        assert s[1..] == QuotedList(xs) + ("]" + "") && s[0] == '[';
    }
  }

  predicate IsBare(k: string) { k != "" && forall i :: 0 <= i < |k| ==> IsBareChar(k[i]) }

  lemma {:induction false} BareRunStops(k: string, rest: string)
    requires (forall i :: 0 <= i < |k| ==> IsBareChar(k[i])) && (rest == "" || !IsBareChar(rest[0]))
    ensures BareRun(k + rest) == |k|
  {
    if k == "" {
      assert k + rest == rest;
    } else {
      assert (k + rest)[1..] == k[1..] + rest;
      BareRunStops(k[1..], rest);
    }
  }

  lemma EqualsReads(key: string, s: string, v: Value)
    requires s != "" && !IsWs(s[0]) && ParseValue(s) == Some((v, ""))
    ensures ParseRight(key, "=" + (" " + s)) == Pair(key, v)
  {
    assert ("=" + (" " + s))[1..] == " " + s;
    SkipOne(s);
  }

  lemma RightReads(key: string, v: Value)
    ensures ParseRight(key, SkipWs(" = " + PrintValue(v))) == Pair(key, v)
  {
    var s := PrintValue(v);
    ValueReads(v);
    assert " = " + s == " " + ("=" + (" " + s));
    SkipOne("=" + (" " + s));
    EqualsReads(key, s, v);
  }

  lemma BareKeyReads(key: string, right: string)
    requires IsBare(key) && right != "" && !IsBareChar(right[0])
    ensures var line := key + right;
            SkipWs(line) == line && line[0] != '[' && !AtEnd(line) && ParseKey(line) == Some((key, right))
  {
    var line := key + right;
    assert line[0] == key[0] && IsBareChar(key[0]);
    SkipNone(line);
    BareRunStops(key, right);
    assert line[..|key|] == key && line[|key|..] == right;
  }

  /** A key set with a bare key. */
  lemma BareLineReads(key: string, v: Value)
    requires IsBare(key)
    ensures ParseLine(key + " = " + PrintValue(v)) == Pair(key, v)
  {
    var right := " = " + PrintValue(v);
    assert key + " = " + PrintValue(v) == key + right;
    BareKeyReads(key, right);
    RightReads(key, v);
  }

  /** A key set with a quoted key. */
  lemma QuotedLineReads(key: string, v: Value)
    ensures ParseLine(Quote(key) + " = " + PrintValue(v)) == Pair(key, v)
  {
    var right := " = " + PrintValue(v);
    var line := Quote(key) + right;
    assert Quote(key) + " = " + PrintValue(v) == line;
    assert line[0] == '"';
    SkipNone(line);
    StringReads(key, right);
    RightReads(key, v);
  }

  lemma HeaderLineReads(name: string)
    requires IsBare(name)
    ensures ParseLine("[" + name + "]") == Header(name)
  {
    var line := "[" + name + "]";
    SkipNone(line);
    assert line[1..] == name + "]";
    assert (name + "]")[0] == name[0] && IsBareChar(name[0]);
    SkipNone(name + "]");
    BareRunStops(name, "]");
    assert (name + "]")[..|name|] == name && (name + "]")[|name|..] == "]";
    SkipNone("]");
    assert "]"[1..] == "";
  }

  // --- documents ---

  type Pairs = seq<(string, Value)>

  /** A `[name]` table as printed: whether its keys are quoted, and its keys and values in order. */
  datatype Section = Section(name: string, quoted: bool, pairs: Pairs)

  function PrintKey(quoted: bool, k: string): string { if quoted then Quote(k) else k }

  function PrintPairs(quoted: bool, kvs: Pairs): (r: seq<string>)
    ensures |r| == |kvs|
  {
    seq(|kvs|, i requires 0 <= i < |kvs| => PrintKey(quoted, kvs[i].0) + " = " + PrintValue(kvs[i].1))
  }

  function PrintSection(s: Section): seq<string> { ["", "[" + s.name + "]"] + PrintPairs(s.quoted, s.pairs) }

  function PrintSections(ss: seq<Section>): seq<string> {
    if ss == [] then [] else PrintSection(ss[0]) + PrintSections(ss[1..])
  }

  function PairItems(kvs: Pairs): (r: seq<Item>)
    ensures |r| == |kvs|
  {
    seq(|kvs|, i requires 0 <= i < |kvs| => Pair(kvs[i].0, kvs[i].1))
  }

  function SectionItems(ss: seq<Section>): seq<Item> {
    if ss == [] then [] else [Blank, Header(ss[0].name)] + PairItems(ss[0].pairs) + SectionItems(ss[1..])
  }

  predicate PrintableSection(s: Section) {
    IsBare(s.name) && (!s.quoted ==> forall i :: 0 <= i < |s.pairs| ==> IsBare(s.pairs[i].0))
  }

  lemma ParseConcat(a: seq<string>, b: seq<string>)
    ensures ParseLines(a + b) == ParseLines(a) + ParseLines(b)
  {
  }

  lemma PairsRead(quoted: bool, kvs: Pairs)
    requires !quoted ==> forall i :: 0 <= i < |kvs| ==> IsBare(kvs[i].0)
    ensures ParseLines(PrintPairs(quoted, kvs)) == PairItems(kvs)
  {
    forall i | 0 <= i < |kvs| ensures ParseLine(PrintPairs(quoted, kvs)[i]) == Pair(kvs[i].0, kvs[i].1) {
      if quoted { QuotedLineReads(kvs[i].0, kvs[i].1); } else { BareLineReads(kvs[i].0, kvs[i].1); }
    }
  }

  lemma SectionReads(s: Section)
    requires PrintableSection(s)
    ensures ParseLines(PrintSection(s)) == [Blank, Header(s.name)] + PairItems(s.pairs)
  {
    var head := ["", "[" + s.name + "]"];
    HeaderLineReads(s.name);
    assert ParseLines(head) == [Blank, Header(s.name)];
    PairsRead(s.quoted, s.pairs);
    ParseConcat(head, PrintPairs(s.quoted, s.pairs));
  }

  lemma {:induction false} SectionsRead(ss: seq<Section>)
    requires forall i :: 0 <= i < |ss| ==> PrintableSection(ss[i])
    ensures ParseLines(PrintSections(ss)) == SectionItems(ss)
  {
    if ss != [] {
      SectionReads(ss[0]);
      SectionsRead(ss[1..]);
      ParseConcat(PrintSection(ss[0]), PrintSections(ss[1..]));
    }
  }

  // --- what is built from the items ---

  function TableOf(kvs: Pairs): Table {
    if kvs == [] then map[] else TableOf(kvs[..|kvs| - 1])[kvs[|kvs| - 1].0 := kvs[|kvs| - 1].1]
  }

  predicate DistinctKeys(kvs: Pairs) { forall i, j :: 0 <= i < j < |kvs| ==> kvs[i].0 != kvs[j].0 }

  lemma {:induction false} TableKeys(kvs: Pairs, k: string)
    ensures k in TableOf(kvs) <==> exists i :: 0 <= i < |kvs| && kvs[i].0 == k
  {
    if kvs != [] {
      var init := kvs[..|kvs| - 1];
      TableKeys(init, k);
      assert forall i :: 0 <= i < |init| ==> init[i] == kvs[i];
    }
  }

  /** The table after a list of pairs, or the failure a repeated key is. */
  lemma {:induction false} FeedPairs(p: Parser, kvs: Pairs)
    requires p.cur in p.doc && p.doc[p.cur] == map[]
    ensures FeedAll(p, PairItems(kvs)) ==
            if DistinctKeys(kvs) then Some(Parser(p.doc[p.cur := TableOf(kvs)], p.cur)) else None
  {
    if kvs == [] {
      assert p.doc[p.cur := map[]] == p.doc;
    } else {
      var init, last := kvs[..|kvs| - 1], kvs[|kvs| - 1];
      FeedPairs(p, init);
      assert PairItems(kvs) == PairItems(init) + [Pair(last.0, last.1)];
      FeedConcat(p, PairItems(init), [Pair(last.0, last.1)]);
      TableKeys(init, last.0);
      if DistinctKeys(init) {
        var q := Parser(p.doc[p.cur := TableOf(init)], p.cur);
        FeedOne(q, Pair(last.0, last.1));
        if last.0 in TableOf(init) {
          var i :| 0 <= i < |init| && init[i].0 == last.0;
          assert kvs[i].0 == kvs[|kvs| - 1].0;
        } else {
          forall i, j | 0 <= i < j < |kvs| ensures kvs[i].0 != kvs[j].0 {
            if j == |kvs| - 1 { assert init[i].0 != last.0; } else { assert init[i].0 != init[j].0; }
          }
          assert q.doc[p.cur := TableOf(kvs)] == p.doc[p.cur := TableOf(kvs)];
        }
      } else {
        var i, j :| 0 <= i < j < |init| && init[i].0 == init[j].0;
        assert kvs[i].0 == kvs[j].0;
      }
    }
  }

  lemma FeedOne(p: Parser, item: Item)
    ensures FeedAll(p, [item]) == Feed(p, item)
  {
    if Feed(p, item).Some? { assert [item][1..] == []; }
  }

  /** The document of the sections, added to one that has none of them. */
  function WithSections(doc: Doc, ss: seq<Section>): Doc
    decreases |ss|
  {
    if ss == [] then doc else WithSections(doc[ss[0].name := TableOf(ss[0].pairs)], ss[1..])
  }

  /** The sections have names of their own, none of them a key or a table of the document so far. */
  predicate FreshNames(doc: Doc, ss: seq<Section>)
    decreases |ss|
  {
    "" in doc && (ss == [] ||
      (&& ss[0].name != "" && ss[0].name !in doc && ss[0].name !in doc[""]
       && FreshNames(doc[ss[0].name := TableOf(ss[0].pairs)], ss[1..])))
  }

  predicate AllDistinct(ss: seq<Section>) {
    ss == [] || (DistinctKeys(ss[0].pairs) && AllDistinct(ss[1..]))
  }

  function DocAfter(p: Parser, items: seq<Item>): Option<Doc> {
    match FeedAll(p, items)
    case None => None
    case Some(q) => Some(q.doc)
  }

  lemma FeedSection(p: Parser, s: Section)
    requires "" in p.doc && s.name !in p.doc && s.name !in p.doc[""] && s.name != ""
    ensures FeedAll(p, [Blank, Header(s.name)] + PairItems(s.pairs)) ==
            if DistinctKeys(s.pairs) then Some(Parser(p.doc[s.name := TableOf(s.pairs)], s.name)) else None
  {
    FeedConcat(p, [Blank, Header(s.name)], PairItems(s.pairs));
    FeedConcat(p, [Blank], [Header(s.name)]);
    assert [Blank] + [Header(s.name)] == [Blank, Header(s.name)];
    FeedOne(p, Blank);
    FeedOne(p, Header(s.name));
    var q := Parser(p.doc[s.name := map[]], s.name);
    FeedPairs(q, s.pairs);
    assert q.doc[s.name := TableOf(s.pairs)] == p.doc[s.name := TableOf(s.pairs)];
  }

  lemma {:induction false} FeedSections(p: Parser, ss: seq<Section>)
    requires FreshNames(p.doc, ss)
    ensures DocAfter(p, SectionItems(ss)) == if AllDistinct(ss) then Some(WithSections(p.doc, ss)) else None
    decreases |ss|
  {
    if ss != [] {
      var s, tail := ss[0], ss[1..];
      FeedConcat(p, [Blank, Header(s.name)] + PairItems(s.pairs), SectionItems(tail));
      FeedSection(p, s);
      if DistinctKeys(s.pairs) {
        FeedSections(Parser(p.doc[s.name := TableOf(s.pairs)], s.name), tail);
      }
    }
  }

  // --- the platform file ---

  /** The facts a platform file states (`facts`); `names` is the order the dictionary of files is in. */
  datatype Facts = Facts(
    format: nat, os: string, stdlibCrate: string, stdlibTag: string, channel: string,
    targets: seq<string>, rustflags: map<string, seq<string>>,
    entry: string, script: string, files: map<string, string>, names: seq<string>)

  /** The sequence runs through the keys: every element is one, and every key is an element. */
  predicate Covers<V>(s: seq<string>, m: map<string, V>) {
    (forall i :: 0 <= i < |s| ==> s[i] in m) && (forall k | k in m :: k in s)
  }

  predicate NoRepeats(s: seq<string>) { forall i, j :: 0 <= i < j < |s| ==> s[i] != s[j] }

  /** Every target has flags and there are no others; a dictionary's keys do not repeat. */
  predicate FactsOk(f: Facts) {
    Covers(f.targets, f.rustflags) && Covers(f.names, f.files) && NoRepeats(f.names)
  }

  /** A comment line; the file opens with two of them. */
  predicate IsComment(line: string) {
    line != "" && line[0] == '#' && forall i :: 0 <= i < |line| ==> !IsControl(line[i])
  }

  predicate AllComments(lines: seq<string>) { forall i :: 0 <= i < |lines| ==> IsComment(lines[i]) }

  /** The root keys; an absent or empty commit is left out. */
  function Root(f: Facts, commit: Option<string>): Pairs {
    [("format", Int(f.format)), ("os", Str(f.os))]
      + if commit.Some? && commit.value != "" then [("commit", Str(commit.value))] else []
  }

  function FlagPairs(f: Facts): (r: Pairs)
    requires FactsOk(f)
    ensures |r| == |f.targets|
  {
    seq(|f.targets|, i requires 0 <= i < |f.targets| => (f.targets[i], Arr(f.rustflags[f.targets[i]])))
  }

  function FilePairs(f: Facts): (r: Pairs)
    requires FactsOk(f)
    ensures |r| == |f.names|
  {
    seq(|f.names|, i requires 0 <= i < |f.names| => (f.names[i], Str(f.files[f.names[i]])))
  }

  function Sections(f: Facts): seq<Section>
    requires FactsOk(f)
  {
    [Section("stdlib", false, [("crate", Str(f.stdlibCrate)), ("tag", Str(f.stdlibTag))]),
     Section("toolchain", false, [("channel", Str(f.channel)), ("targets", Arr(f.targets))]),
     Section("link", false, [("entry", Str(f.entry)), ("script", Str(f.script))]),
     Section("rustflags", true, FlagPairs(f)),
     Section("files", true, FilePairs(f))]
  }

  function DocLines(comments: seq<string>, root: Pairs, ss: seq<Section>): seq<string> {
    comments + PrintPairs(false, root) + PrintSections(ss)
  }

  /** `render` */
  function Render(comments: seq<string>, f: Facts, commit: Option<string>): string
    requires FactsOk(f)
  {
    Unlines(DocLines(comments, Root(f, commit), Sections(f))) + [NEWLINE]
  }

  /** The dictionary `read_back` compares with. */
  function Want(f: Facts, commit: Option<string>): Doc {
    var root := map["format" := Int(f.format), "os" := Str(f.os)];
    map["" := if commit.Some? && commit.value != "" then root["commit" := Str(commit.value)] else root,
        "stdlib" := map["crate" := Str(f.stdlibCrate), "tag" := Str(f.stdlibTag)],
        "toolchain" := map["channel" := Str(f.channel), "targets" := Arr(f.targets)],
        "link" := map["entry" := Str(f.entry), "script" := Str(f.script)],
        "rustflags" := map t | t in f.rustflags :: Arr(f.rustflags[t]),
        "files" := map n | n in f.files :: Str(f.files[n])]
  }

  // --- printing ---

  /** The lines of a table, appended one after another. */
  method AppendPairs(lines: seq<string>, quoted: bool, kvs: Pairs) returns (out: seq<string>)
    ensures out == lines + PrintPairs(quoted, kvs)
  {
    out := lines;
    ghost var all := PrintPairs(quoted, kvs);
    for i := 0 to |kvs|
      invariant out == lines + all[..i]
    {
      out := out + [PrintKey(quoted, kvs[i].0) + " = " + PrintValue(kvs[i].1)];
      assert all[..i + 1] == all[..i] + [all[i]];
    }
    assert all[..|kvs|] == all;
  }

  method AppendSections(lines: seq<string>, ss: seq<Section>) returns (out: seq<string>)
    ensures out == lines + PrintSections(ss)
  {
    out := lines;
    for i := 0 to |ss|
      invariant out == lines + PrintSections(ss[..i])
    {
      var head := ["", "[" + ss[i].name + "]"];
      out := AppendPairs(out + head, ss[i].quoted, ss[i].pairs);
      SectionsSnoc(ss, i);
      Regroup(lines, PrintSections(ss[..i]), head, PrintPairs(ss[i].quoted, ss[i].pairs));
    }
    assert ss[..|ss|] == ss;
  }

  lemma SectionsSnoc(ss: seq<Section>, i: nat)
    requires i < |ss|
    ensures PrintSections(ss[..i + 1]) == PrintSections(ss[..i]) + PrintSection(ss[i])
  {
    SectionsConcat(ss[..i], [ss[i]]);
    assert ss[..i + 1] == ss[..i] + [ss[i]];
    OneSection(ss[i]);
  }

  lemma Regroup(a: seq<string>, b: seq<string>, c: seq<string>, d: seq<string>)
    ensures a + b + c + d == a + (b + (c + d))
  {
  }

  /** `render`: the comments and root keys, then each table after an empty line. */
  method RenderFile(comments: seq<string>, f: Facts, commit: Option<string>) returns (text: string)
    requires FactsOk(f)
    ensures text == Render(comments, f, commit)
  {
    var lines := AppendPairs(comments, false, Root(f, commit));
    lines := AppendSections(lines, Sections(f));
    text := Unlines(lines) + [NEWLINE];
  }

  lemma OneSection(s: Section)
    ensures PrintSections([s]) == PrintSection(s)
  {
    assert [s][1..] == [];
  }

  lemma {:induction false} SectionsConcat(a: seq<Section>, b: seq<Section>)
    ensures PrintSections(a + b) == PrintSections(a) + PrintSections(b)
  {
    if a == [] {
      assert a + b == b;
    } else {
      assert (a + b)[1..] == a[1..] + b;
      SectionsConcat(a[1..], b);
    }
  }

  // --- reading back ---

  lemma ValueHasNoNewline(v: Value)
    ensures NEWLINE !in PrintValue(v)
  {
    match v
    case Int(n) => assert AllDigits(ToDec(n)); assert !IsDigit(NEWLINE);
    case Str(s) => EscapedHasNoNewline(s);
    case Arr(xs) => ListHasNoNewline(xs);
  }

  lemma {:induction false} ListHasNoNewline(xs: seq<string>)
    ensures NEWLINE !in QuotedList(xs)
  {
    if xs != [] {
      EscapedHasNoNewline(xs[0]);
      ListHasNoNewline(xs[1..]);
    }
  }

  lemma PairsHaveNoNewline(quoted: bool, kvs: Pairs)
    requires !quoted ==> forall i :: 0 <= i < |kvs| ==> IsBare(kvs[i].0)
    ensures forall i :: 0 <= i < |kvs| ==> NEWLINE !in PrintPairs(quoted, kvs)[i]
  {
    forall i | 0 <= i < |kvs| ensures NEWLINE !in PrintPairs(quoted, kvs)[i] {
      ValueHasNoNewline(kvs[i].1);
      EscapedHasNoNewline(kvs[i].0);
      assert !IsBareChar(NEWLINE);
    }
  }

  lemma {:induction false} SectionsHaveNoNewline(ss: seq<Section>)
    requires forall i :: 0 <= i < |ss| ==> PrintableSection(ss[i])
    ensures forall i :: 0 <= i < |PrintSections(ss)| ==> NEWLINE !in PrintSections(ss)[i]
  {
    if ss != [] {
      SectionsHaveNoNewline(ss[1..]);
      PairsHaveNoNewline(ss[0].quoted, ss[0].pairs);
      assert !IsBareChar(NEWLINE);
    }
  }

  lemma CommentsRead(comments: seq<string>)
    requires AllComments(comments)
    ensures ParseLines(comments) == seq(|comments|, _ => Blank)
    ensures forall i :: 0 <= i < |comments| ==> NEWLINE !in comments[i]
  {
    forall i | 0 <= i < |comments| ensures ParseLine(comments[i]) == Blank && NEWLINE !in comments[i] {
      SkipNone(comments[i]);
      assert IsControl(NEWLINE);
    }
  }

  lemma NamesAreBare(f: Facts, commit: Option<string>)
    requires FactsOk(f)
    ensures forall i :: 0 <= i < |Root(f, commit)| ==> IsBare(Root(f, commit)[i].0)
    ensures forall i :: 0 <= i < |Sections(f)| ==> PrintableSection(Sections(f)[i])
  {
  }

  /** The text of a document splits into its lines again. */
  lemma DocSplits(comments: seq<string>, root: Pairs, ss: seq<Section>)
    requires AllComments(comments) && root != [] && forall i :: 0 <= i < |root| ==> IsBare(root[i].0)
    requires forall i :: 0 <= i < |ss| ==> PrintableSection(ss[i])
    ensures Lines(Unlines(DocLines(comments, root, ss)) + [NEWLINE]) == DocLines(comments, root, ss) + [""]
  {
    var lines := DocLines(comments, root, ss);
    CommentsRead(comments);
    PairsHaveNoNewline(false, root);
    SectionsHaveNoNewline(ss);
    LinesUnlines(lines);
    LinesNewline(Unlines(lines), "");
    assert Unlines(lines) + [NEWLINE] + "" == Unlines(lines) + [NEWLINE];
  }

  lemma DocItems(comments: seq<string>, root: Pairs, ss: seq<Section>)
    requires AllComments(comments) && forall i :: 0 <= i < |root| ==> IsBare(root[i].0)
    requires forall i :: 0 <= i < |ss| ==> PrintableSection(ss[i])
    ensures ParseLines(DocLines(comments, root, ss)) == seq(|comments|, _ => Blank) + PairItems(root) + SectionItems(ss)
  {
    var pairs := PrintPairs(false, root);
    CommentsRead(comments);
    ParseConcat(comments + pairs, PrintSections(ss));
    ParseConcat(comments, pairs);
    PairsRead(false, root);
    SectionsRead(ss);
  }

  lemma LastLineReads(lines: seq<string>)
    ensures ParseLines(lines + [""]) == ParseLines(lines) + [Blank]
  {
    ParseConcat(lines, [""]);
    assert ParseLine("") == Blank;
  }

  /** The text of a document, read line by line. */
  lemma DocReads(comments: seq<string>, root: Pairs, ss: seq<Section>)
    requires AllComments(comments) && root != [] && forall i :: 0 <= i < |root| ==> IsBare(root[i].0)
    requires forall i :: 0 <= i < |ss| ==> PrintableSection(ss[i])
    ensures ParseLines(Lines(Unlines(DocLines(comments, root, ss)) + [NEWLINE]))
         == seq(|comments|, _ => Blank) + PairItems(root) + SectionItems(ss) + [Blank]
  {
    DocSplits(comments, root, ss);
    DocItems(comments, root, ss);
    LastLineReads(DocLines(comments, root, ss));
  }

  /** The items of the file build the tables in order, or fail on a repeated key. */
  lemma FeedFile(blanks: nat, root: Pairs, ss: seq<Section>)
    requires DistinctKeys(root) && FreshNames(map["" := TableOf(root)], ss)
    ensures DocAfter(START, seq(blanks, _ => Blank) + PairItems(root) + SectionItems(ss) + [Blank]) ==
            if AllDistinct(ss) then Some(WithSections(map["" := TableOf(root)], ss)) else None
  {
    var bs := seq(blanks, _ => Blank);
    var a, b, c := bs + PairItems(root), SectionItems(ss), [Blank];
    FeedConcat(START, a + b, c);
    FeedConcat(START, a, b);
    FeedConcat(START, bs, PairItems(root));
    FeedBlanks(START, blanks);
    FeedPairs(START, root);
    var q := Parser(map["" := TableOf(root)], "");
    assert START.doc["" := TableOf(root)] == q.doc;
    FeedSections(q, ss);
    if AllDistinct(ss) { FeedOne(FeedAll(q, b).value, Blank); }
  }

  lemma {:induction false} FeedBlanks(p: Parser, n: nat)
    ensures FeedAll(p, seq(n, _ => Blank)) == Some(p)
  {
    var bs := seq(n, _ => Blank);
    if n > 0 {
      FeedBlanks(p, n - 1);
      assert bs[1..] == seq(n - 1, _ => Blank);
    }
  }

  // --- the tables meant ---

  lemma TablePair(a: string, x: Value, b: string, y: Value)
    requires a != b
    ensures TableOf([(a, x), (b, y)]) == map[a := x, b := y] && DistinctKeys([(a, x), (b, y)])
  {
    var kvs := [(a, x), (b, y)];
    assert kvs[..1] == [(a, x)] && kvs[..1][..0] == [];
    assert TableOf([(a, x)]) == map[a := x];
  }

  lemma {:induction false} TableOfFlags(ts: seq<string>, m: map<string, seq<string>>, kvs: Pairs)
    requires |kvs| == |ts| && forall i :: 0 <= i < |ts| ==> ts[i] in m && kvs[i] == (ts[i], Arr(m[ts[i]]))
    ensures TableOf(kvs) == map t | t in ts :: if t in m then Arr(m[t]) else Arr([])
  {
    if ts != [] {
      var init, last := ts[..|ts| - 1], ts[|ts| - 1];
      TableOfFlags(init, m, kvs[..|kvs| - 1]);
      assert ts == init + [last];
    }
  }

  lemma {:induction false} TableOfFiles(ns: seq<string>, m: map<string, string>, kvs: Pairs)
    requires |kvs| == |ns| && forall i :: 0 <= i < |ns| ==> ns[i] in m && kvs[i] == (ns[i], Str(m[ns[i]]))
    ensures TableOf(kvs) == map n | n in ns :: if n in m then Str(m[n]) else Str("")
  {
    if ns != [] {
      var init, last := ns[..|ns| - 1], ns[|ns| - 1];
      TableOfFiles(init, m, kvs[..|kvs| - 1]);
      assert ns == init + [last];
    }
  }

  lemma FlagTable(f: Facts)
    requires FactsOk(f)
    ensures TableOf(FlagPairs(f)) == map t | t in f.rustflags :: Arr(f.rustflags[t])
    ensures DistinctKeys(FlagPairs(f)) <==> NoRepeats(f.targets)
  {
    TableOfFlags(f.targets, f.rustflags, FlagPairs(f));
    var kvs := FlagPairs(f);
    if DistinctKeys(kvs) {
      forall i, j | 0 <= i < j < |f.targets| ensures f.targets[i] != f.targets[j] { assert kvs[i].0 != kvs[j].0; }
    }
  }

  lemma FileTable(f: Facts)
    requires FactsOk(f)
    ensures TableOf(FilePairs(f)) == map n | n in f.files :: Str(f.files[n])
    ensures DistinctKeys(FilePairs(f))
  {
    TableOfFiles(f.names, f.files, FilePairs(f));
  }

  lemma RootTable(f: Facts, commit: Option<string>)
    ensures TableOf(Root(f, commit)) == Want(f, commit)[""] && DistinctKeys(Root(f, commit))
  {
    var two := [("format", Int(f.format)), ("os", Str(f.os))];
    TablePair("format", Int(f.format), "os", Str(f.os));
    if commit.Some? && commit.value != "" {
      var r := Root(f, commit);
      assert r[..2] == two && r[2] == ("commit", Str(commit.value));
    } else {
      assert Root(f, commit) == two;
    }
  }

  lemma SectionsDistinct(f: Facts)
    requires FactsOk(f)
    ensures AllDistinct(Sections(f)) <==> NoRepeats(f.targets)
  {
    var ss := Sections(f);
    TablePair("crate", Str(f.stdlibCrate), "tag", Str(f.stdlibTag));
    TablePair("channel", Str(f.channel), "targets", Arr(f.targets));
    TablePair("entry", Str(f.entry), "script", Str(f.script));
    FlagTable(f);
    FileTable(f);
    assert ss[1..][1..][1..] == ss[3..] && ss[3..][1..] == ss[4..] && ss[4..][1..] == [];
    assert AllDistinct(ss[4..]);
    assert AllDistinct(ss[3..]) <==> NoRepeats(f.targets);
    assert AllDistinct(ss[1..][1..]) <==> NoRepeats(f.targets);
    assert AllDistinct(ss[1..]) <==> NoRepeats(f.targets);
  }

  predicate NewNames(doc: Doc, ss: seq<Section>) {
    && "" in doc
    && (forall i :: 0 <= i < |ss| ==> ss[i].name != "" && ss[i].name !in doc && ss[i].name !in doc[""])
    && (forall i, j :: 0 <= i < j < |ss| ==> ss[i].name != ss[j].name)
  }

  lemma {:induction false} NewNamesAreFresh(doc: Doc, ss: seq<Section>)
    requires NewNames(doc, ss)
    ensures FreshNames(doc, ss)
    decreases |ss|
  {
    if ss != [] {
      assert forall i :: 0 <= i < |ss| - 1 ==> ss[1..][i] == ss[i + 1];
      NewNamesAreFresh(doc[ss[0].name := TableOf(ss[0].pairs)], ss[1..]);
    }
  }

  lemma RootKeys(f: Facts, commit: Option<string>)
    ensures TableOf(Root(f, commit)).Keys <= {"format", "os", "commit"}
  {
    RootTable(f, commit);
  }

  lemma SectionNames(f: Facts)
    requires FactsOk(f)
    ensures forall i, j :: 0 <= i < j < |Sections(f)| ==> Sections(f)[i].name != Sections(f)[j].name
    ensures forall i :: 0 <= i < |Sections(f)| ==> Sections(f)[i].name !in {"", "format", "os", "commit"}
  {
    var names := ["stdlib", "toolchain", "link", "rustflags", "files"];
    assert |Sections(f)| == 5;
    assert forall i :: 0 <= i < 5 ==> Sections(f)[i].name == names[i];
  }

  lemma SectionsFresh(f: Facts, commit: Option<string>)
    requires FactsOk(f)
    ensures FreshNames(map["" := TableOf(Root(f, commit))], Sections(f))
  {
    var doc := map["" := TableOf(Root(f, commit))];
    RootKeys(f, commit);
    SectionNames(f);
    forall i | 0 <= i < |Sections(f)|
      ensures Sections(f)[i].name != "" && Sections(f)[i].name !in doc && Sections(f)[i].name !in doc[""]
    {
      assert Sections(f)[i].name !in {"", "format", "os", "commit"};
    }
    NewNamesAreFresh(doc, Sections(f));
  }

  lemma SectionsGiveWant(f: Facts, commit: Option<string>)
    requires FactsOk(f)
    ensures WithSections(map["" := TableOf(Root(f, commit))], Sections(f)) == Want(f, commit)
  {
    var ss := Sections(f);
    RootTable(f, commit);
    TablePair("crate", Str(f.stdlibCrate), "tag", Str(f.stdlibTag));
    TablePair("channel", Str(f.channel), "targets", Arr(f.targets));
    TablePair("entry", Str(f.entry), "script", Str(f.script));
    FlagTable(f);
    FileTable(f);
    var d0: Doc := map["" := TableOf(Root(f, commit))];
    var d1 := d0["stdlib" := TableOf(ss[0].pairs)];
    var d2 := d1["toolchain" := TableOf(ss[1].pairs)];
    var d3 := d2["link" := TableOf(ss[2].pairs)];
    var d4 := d3["rustflags" := TableOf(ss[3].pairs)];
    var d5 := d4["files" := TableOf(ss[4].pairs)];
    assert ss[1..][1..] == ss[2..] && ss[2..][1..] == ss[3..] && ss[3..][1..] == ss[4..] && ss[4..][1..] == [];
    assert WithSections(d4, ss[4..]) == WithSections(d5, []) == d5;
    assert WithSections(d3, ss[3..]) == d5;
    assert WithSections(d2, ss[2..]) == d5;
    assert WithSections(d1, ss[1..]) == d5;
    assert d5 == Want(f, commit);
  }

  /** For every set of facts, whatever characters they hold, parsing the rendered file as TOML gives
      back exactly those facts, if and only if no target is listed twice; with a repeat it is refused. */
  lemma RenderReadsBack(comments: seq<string>, f: Facts, commit: Option<string>)
    requires AllComments(comments) && FactsOk(f)
    ensures ParseDoc(Render(comments, f, commit)) == if NoRepeats(f.targets) then Some(Want(f, commit)) else None
  {
    NamesAreBare(f, commit);
    DocReads(comments, Root(f, commit), Sections(f));
    RootTable(f, commit);
    SectionsFresh(f, commit);
    SectionsDistinct(f);
    FeedFile(|comments|, Root(f, commit), Sections(f));
    SectionsGiveWant(f, commit);
  }
}
