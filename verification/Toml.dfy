/** The part of TOML v1.0.0 a platform file uses: comments, `[table]` headers, bare and quoted keys,
    basic strings, non-negative integers and arrays of basic strings. */
module Toml {
  import opened Text
  import opened Decimal

  datatype Value = Int(n: nat) | Str(s: string) | Arr(items: seq<string>)

  type Table = map<string, Value>

  /** A document: its tables by name, the root table under the empty name. */
  type Doc = map<string, Table>

  predicate IsWs(c: char) { c == ' ' || c == '\t' }

  /** Control characters, which may not stand in a basic string or a comment; tab may. */
  predicate IsControl(c: char) { (c as int < 0x20 && c != '\t') || c as int == 0x7F }

  predicate IsBareChar(c: char) {
    'a' <= c <= 'z' || 'A' <= c <= 'Z' || '0' <= c <= '9' || c == '_' || c == '-'
  }

  function SkipWs(s: string): string {
    if s != "" && IsWs(s[0]) then SkipWs(s[1..]) else s
  }

  /** Nothing but whitespace and a comment. */
  predicate AtEnd(s: string) {
    var t := SkipWs(s);
    t == "" || (t[0] == '#' && forall i :: 0 <= i < |t| ==> !IsControl(t[i]))
  }

  function HexValue(c: char): Option<nat> {
    if '0' <= c <= '9' then Some(c as int - '0' as int)
    else if 'a' <= c <= 'f' then Some(c as int - 'a' as int + 10)
    else if 'A' <= c <= 'F' then Some(c as int - 'A' as int + 10)
    else None
  }

  function FromHex(s: string): Option<nat> {
    if s == "" then Some(0)
    else match FromHex(s[..|s| - 1])
      case None => None
      case Some(n) => (match HexValue(s[|s| - 1]) case None => None case Some(d) => Some(16 * n + d))
  }

  /** A Unicode scalar value. */
  predicate IsScalar(n: nat) { n < 0xD800 || 0xE000 <= n < 0x11_0000 }

  /** The character of an escape sequence after its backslash, and what follows it. */
  function Unescape(s: string): Option<(char, string)> {
    if s == "" then None
    else if s[0] == 'b' then Some((8 as char, s[1..]))
    else if s[0] == 't' then Some(('\t', s[1..]))
    else if s[0] == 'n' then Some(('\n', s[1..]))
    else if s[0] == 'f' then Some((12 as char, s[1..]))
    else if s[0] == 'r' then Some(('\r', s[1..]))
    else if s[0] == '"' then Some(('"', s[1..]))
    else if s[0] == '\\' then Some(('\\', s[1..]))
    else if s[0] == 'u' || s[0] == 'U' then
      var w := if s[0] == 'u' then 4 else 8;
      if |s| < 1 + w then None
      else match FromHex(s[1..1 + w])
        case Some(n) => if IsScalar(n) then Some((n as char, s[1 + w..])) else None
        case None => None
    else None
  }

  /** A basic string, read from after its opening quote. */
  function ParseBasic(s: string): Option<(string, string)>
    decreases |s|
  {
    if s == "" then None
    else if s[0] == '"' then Some(("", s[1..]))
    else if s[0] == '\\' then
      match Unescape(s[1..])
      case None => None
      case Some((c, rest)) =>
        if |rest| >= |s| then None
        else match ParseBasic(rest)
          case None => None
          case Some((t, after)) => Some(([c] + t, after))
    else if IsControl(s[0]) then None
    else
      match ParseBasic(s[1..])
      case None => None
      case Some((t, after)) => Some(([s[0]] + t, after))
  }

  /** A basic string with its quotes; three quotes would open a multi-line string, which is not used. */
  function ParseString(s: string): Option<(string, string)> {
    if s == "" || s[0] != '"' || (|s| >= 3 && s[1] == '"' && s[2] == '"') then None else ParseBasic(s[1..])
  }

  /** The items of an array, read from after `[` or a comma. */
  function ParseItems(s: string): Option<(seq<string>, string)>
    decreases |s|
  {
    var t := SkipWs(s);
    if t != "" && t[0] == ']' then Some(([], t[1..]))
    else match ParseString(t)
      case None => None
      case Some((x, rest)) =>
        var u := SkipWs(rest);
        if u == "" || |u| > |s| then None
        else if u[0] == ']' then Some(([x], u[1..]))
        else if u[0] == ',' then
          (match ParseItems(u[1..])
           case None => None
           case Some((xs, after)) => Some(([x] + xs, after)))
        else None
  }

  function ParseValue(s: string): Option<(Value, string)> {
    if s == "" then None
    else if s[0] == '[' then
      (match ParseItems(s[1..]) case None => None case Some((xs, rest)) => Some((Arr(xs), rest)))
    else if s[0] == '"' then
      (match ParseString(s) case None => None case Some((x, rest)) => Some((Str(x), rest)))
    else
      var k := DigitRun(s);
      if k == 0 || (k > 1 && s[0] == '0') then None else Some((Int(FromDec(s[..k])), s[k..]))
  }

  function BareRun(s: string): (k: nat)
    ensures k <= |s|
  {
    if s == "" || !IsBareChar(s[0]) then 0 else 1 + BareRun(s[1..])
  }

  function ParseKey(s: string): Option<(string, string)> {
    if s != "" && s[0] == '"' then ParseString(s)
    else var k := BareRun(s); if k == 0 then None else Some((s[..k], s[k..]))
  }

  datatype Item = Blank | Header(name: string) | Pair(key: string, value: Value) | Bad

  function ParseLine(line: string): Item {
    var s := SkipWs(line);
    if AtEnd(line) then Blank
    else if s[0] == '[' then
      (match ParseKey(SkipWs(s[1..]))
       case None => Bad
       case Some((name, rest)) =>
         var t := SkipWs(rest);
         if t != "" && t[0] == ']' && AtEnd(t[1..]) then Header(name) else Bad)
    else
      (match ParseKey(s)
       case None => Bad
       case Some((key, rest)) => ParseRight(key, SkipWs(rest)))
  }

  /** What follows a key. */
  function ParseRight(key: string, s: string): Item {
    if s == "" || s[0] != '=' then Bad
    else match ParseValue(SkipWs(s[1..]))
      case None => Bad
      case Some((v, rest)) => if AtEnd(rest) then Pair(key, v) else Bad
  }

  /** A document under construction, and the table the next key goes to. */
  datatype Parser = Parser(doc: Doc, cur: string)

  /** A table may be opened once, a key set once in its table. */
  function Feed(p: Parser, item: Item): Option<Parser> {
    match item
    case Blank => Some(p)
    case Bad => None
    case Header(name) =>
      if name in p.doc || ("" in p.doc && name in p.doc[""]) then None
      else Some(Parser(p.doc[name := map[]], name))
    case Pair(k, v) =>
      if p.cur !in p.doc || k in p.doc[p.cur] then None
      else Some(Parser(p.doc[p.cur := p.doc[p.cur][k := v]], p.cur))
  }

  function FeedAll(p: Parser, items: seq<Item>): Option<Parser>
    decreases |items|
  {
    if items == [] then Some(p)
    else match Feed(p, items[0])
      case None => None
      case Some(q) => FeedAll(q, items[1..])
  }

  const START := Parser(map["" := map[]], "")

  function ParseLines(lines: seq<string>): (r: seq<Item>)
    ensures |r| == |lines|
  {
    seq(|lines|, i requires 0 <= i < |lines| => ParseLine(lines[i]))
  }

  function ParseDoc(text: string): Option<Doc> {
    match FeedAll(START, ParseLines(Lines(text)))
    case None => None
    case Some(p) => Some(p.doc)
  }

  lemma {:induction false} FeedConcat(p: Parser, a: seq<Item>, b: seq<Item>)
    ensures FeedAll(p, a + b) == match FeedAll(p, a) case None => None case Some(q) => FeedAll(q, b)
    decreases |a|
  {
    if a == [] {
      assert a + b == b;
    } else {
      assert (a + b)[1..] == a[1..] + b;
      if Feed(p, a[0]).Some? { FeedConcat(Feed(p, a[0]).value, a[1..], b); }
    }
  }
}
