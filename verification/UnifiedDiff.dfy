/** New-file line numbers out of a unified diff, and the report built on them:
    `added_line_numbers` and `report_against_main` in scripts/shared_surface_check.py. */
module UnifiedDiff {
  import opened Text
  import opened Decimal

  // --- reading ---

  /** What follows `\d+(?:,\d+)?` at the start of `s`. */
  function AfterRange(s: string): Option<string> {
    var k := DigitRun(s);
    if k == 0 then None
    else
      var t := s[k..];
      if t != "" && t[0] == ',' && DigitRun(t[1..]) > 0 then Some(t[1..][DigitRun(t[1..])..]) else Some(t)
  }

  /** The new-file start of a hunk header line, if it is one. */
  function HunkStart(line: string): Option<nat> {
    if StartsWith(line, "@@ -") then AfterOld(line[4..]) else None
  }

  function AfterOld(s: string): Option<nat> {
    match AfterRange(s)
    case None => None
    case Some(t) => if StartsWith(t, " +") then NewStart(t[2..]) else None
  }

  function NewStart(s: string): Option<nat> {
    match AfterRange(s)
    case None => None
    case Some(t) => if StartsWith(t, " @@") then Some(FromDec(s[..DigitRun(s)])) else None
  }

  type Numbered = (nat, string)

  /** What one line of a diff is to the reader. */
  datatype Token = At(start: nat) | FileHead | Plus(text: string) | Minus | Context

  function TokenOf(line: string): Token {
    match HunkStart(line)
    case Some(n) => At(n)
    case None =>
      if StartsWith(line, "+++") then FileHead
      else if StartsWith(line, "+") then Plus(line[1..])
      else if StartsWith(line, "-") then Minus
      else Context
  }

  function Tokens(lines: seq<string>): (r: seq<Token>)
    ensures |r| == |lines|
  {
    seq(|lines|, i requires 0 <= i < |lines| => TokenOf(lines[i]))
  }

  /** The added lines, numbered from a counter that hunk headers reset. */
  function ReadFrom(ts: seq<Token>, at: nat): seq<Numbered> {
    if ts == [] then []
    else match ts[0]
      case At(n) => ReadFrom(ts[1..], n)
      case Plus(t) => [(at, t)] + ReadFrom(ts[1..], at + 1)
      case Context => ReadFrom(ts[1..], at + 1)
      case _ => ReadFrom(ts[1..], at)
  }

  lemma ReadNext(diff: seq<string>, i: nat, at: nat)
    requires i < |diff|
    ensures var t, all, rest := TokenOf(diff[i]), ReadFrom(Tokens(diff)[i..], at), Tokens(diff)[i + 1..];
            && (t.At? ==> all == ReadFrom(rest, t.start))
            && (t.Plus? ==> all == [(at, t.text)] + ReadFrom(rest, at + 1))
            && (t.Context? ==> all == ReadFrom(rest, at + 1))
            && (t.Minus? || t.FileHead? ==> all == ReadFrom(rest, at))
  {
    var ts := Tokens(diff);
    assert ts[i..][1..] == ts[i + 1..] && ts[i..][0] == TokenOf(diff[i]);
  }

  lemma Appended(out: seq<Numbered>, x: Numbered, rest: seq<Numbered>)
    ensures out + ([x] + rest) == out + [x] + rest
  {
  }

  /** `added_line_numbers` */
  method AddedLineNumbers(diff: seq<string>) returns (out: seq<Numbered>)
    ensures out == ReadFrom(Tokens(diff), 0)
  {
    out := [];
    var newLn := 0;
    ghost var ts := Tokens(diff);
    for i := 0 to |diff|
      invariant out + ReadFrom(ts[i..], newLn) == ReadFrom(ts, 0)
    {
      var line := diff[i];
      ReadNext(diff, i, newLn);
      var m := HunkStart(line);
      if m.Some? {
        newLn := m.value;
        continue;
      }
      if StartsWith(line, "+++") { continue; }
      if StartsWith(line, "+") {
        Appended(out, (newLn, line[1..]), ReadFrom(ts[i + 1..], newLn + 1));
        out := out + [(newLn, line[1..])];
        newLn := newLn + 1;
      } else if !StartsWith(line, "-") {
        newLn := newLn + 1;
      }
    }
    assert ts[|diff|..] == [];
  }

  // --- printing an edit script ---

  datatype Op = Keep(text: string) | Del(text: string) | Add(text: string)

  /** An edit script in pieces: stretches the diff leaves out, and hunks it shows. */
  datatype Part = Skipped(lines: seq<string>) | Hunk(ops: seq<Op>, section: string)

  /** A line of the new file, and whether the script added it. */
  datatype NewLine = NewLine(text: string, added: bool)

  function NewOf(ops: seq<Op>): seq<NewLine> {
    if ops == [] then []
    else
      var rest := NewOf(ops[1..]);
      match ops[0]
      case Keep(t) => [NewLine(t, false)] + rest
      case Add(t) => [NewLine(t, true)] + rest
      case Del(_) => rest
  }

  function OldCount(ops: seq<Op>): nat {
    if ops == [] then 0 else (if ops[0].Add? then 0 else 1) + OldCount(ops[1..])
  }

  function Kept(lines: seq<string>): (r: seq<NewLine>)
    ensures |r| == |lines|
  {
    seq(|lines|, i requires 0 <= i < |lines| => NewLine(lines[i], false))
  }

  function NewPart(p: Part): seq<NewLine> {
    match p
    case Skipped(lines) => Kept(lines)
    case Hunk(ops, _) => NewOf(ops)
  }

  /** The new file, line by line. */
  function NewFile(ps: seq<Part>): seq<NewLine> {
    if ps == [] then [] else NewPart(ps[0]) + NewFile(ps[1..])
  }

  /** A line of the diff: the header of a hunk that starts after so many old and new lines, or an op. */
  datatype DiffLine = Head(oldBefore: nat, newBefore: nat, ops: seq<Op>, section: string) | Body(op: Op)

  function Bodies(ops: seq<Op>): (r: seq<DiffLine>)
    ensures |r| == |ops|
  {
    seq(|ops|, i requires 0 <= i < |ops| => Body(ops[i]))
  }

  /** The lines of the diff of a script, after the lines already passed. */
  function Layout(ps: seq<Part>, oldBefore: nat, newBefore: nat): seq<DiffLine> {
    if ps == [] then []
    else match ps[0]
      case Skipped(lines) => Layout(ps[1..], oldBefore + |lines|, newBefore + |lines|)
      case Hunk(ops, section) =>
        [Head(oldBefore, newBefore, ops, section)] + Bodies(ops)
          + Layout(ps[1..], oldBefore + OldCount(ops), newBefore + |NewOf(ops)|)
  }

  /** A range of a hunk header: a count of one is left out, and an empty range names the line before. */
  function PrintRange(before: nat, count: nat): string {
    if count == 1 then ToDec(before + 1) else ToDec(RangeStart(before, count)) + "," + ToDec(count)
  }

  function RangeStart(before: nat, count: nat): nat { if count == 0 then before else before + 1 }

  function PrintLine(d: DiffLine): string {
    match d
    case Head(o, n, ops, section) =>
      "@@ -" + (PrintRange(o, OldCount(ops)) + (" +" + (PrintRange(n, |NewOf(ops)|) + (" @@" + section))))
    case Body(Keep(t)) => " " + t
    case Body(Del(t)) => "-" + t
    case Body(Add(t)) => "+" + t
  }

  function PrintLines(ds: seq<DiffLine>): (r: seq<string>)
    ensures |r| == |ds|
  {
    seq(|ds|, i requires 0 <= i < |ds| => PrintLine(ds[i]))
  }

  /** The hunks of the unified diff of an edit script. */
  function PrintDiff(ps: seq<Part>): seq<string> { PrintLines(Layout(ps, 0, 0)) }

  /** The lines before the first hunk: none of them looks added or like a hunk header. */
  predicate Preamble(lines: seq<string>) {
    forall i :: 0 <= i < |lines| ==>
      HunkStart(lines[i]).None? && (StartsWith(lines[i], "+") ==> StartsWith(lines[i], "+++"))
  }

  /** The added lines of a stretch of the new file that starts at line `at`. */
  function Added(ls: seq<NewLine>, at: nat): seq<Numbered> {
    if ls == [] then []
    else (if ls[0].added then [(at, ls[0].text)] else []) + Added(ls[1..], at + 1)
  }

  // --- the two agree ---

  /** A number, then what does not start with a digit or a comma. */
  lemma NumberReads(n: nat, rest: string)
    requires rest != "" && rest[0] == ' '
    ensures var s := ToDec(n) + rest; AfterRange(s) == Some(rest) && FromDec(s[..DigitRun(s)]) == n
  {
    var d := ToDec(n);
    FromToDec(n);
    DigitRunStops(d, rest);
    assert (d + rest)[..|d|] == d && (d + rest)[|d|..] == rest;
  }

  /** A number, a comma, a number. */
  lemma PairReads(n: nat, count: nat, rest: string)
    requires rest != "" && rest[0] == ' '
    ensures var s := ToDec(n) + ("," + (ToDec(count) + rest));
            AfterRange(s) == Some(rest) && FromDec(s[..DigitRun(s)]) == n
  {
    var d, c := ToDec(n), ToDec(count);
    var tail := "," + (c + rest);
    FromToDec(n);
    DigitRunStops(d, tail);
    assert (d + tail)[..|d|] == d && (d + tail)[|d|..] == tail;
    assert tail[1..] == c + rest;
    DigitRunStops(c, rest);
    assert (c + rest)[|c|..] == rest;
  }

  lemma Regroup(a: string, b: string, rest: string)
    ensures a + "," + b + rest == a + ("," + (b + rest))
  {
  }

  lemma RangeReads(before: nat, count: nat, rest: string)
    requires rest != "" && rest[0] == ' '
    ensures var s := PrintRange(before, count) + rest;
            AfterRange(s) == Some(rest) && FromDec(s[..DigitRun(s)]) == RangeStart(before, count)
  {
    var first := RangeStart(before, count);
    if count == 1 {
      NumberReads(first, rest);
    } else {
      PairReads(first, count, rest);
      Regroup(ToDec(first), ToDec(count), rest);
    }
  }

  lemma PrefixDrops(p: string, s: string)
    ensures StartsWith(p + s, p) && (p + s)[|p|..] == s
  {
  }

  lemma NewStartReads(before: nat, count: nat, tail: string)
    requires StartsWith(tail, " @@")
    ensures NewStart(PrintRange(before, count) + tail) == Some(RangeStart(before, count))
  {
    assert tail[0] == " @@"[0];
    RangeReads(before, count, tail);
  }

  lemma AfterOldReads(before: nat, count: nat, s: string)
    ensures AfterOld(PrintRange(before, count) + (" +" + s)) == NewStart(s)
  {
    PrefixDrops(" +", s);
    assert (" +" + s)[0] == ' ';
    RangeReads(before, count, " +" + s);
  }

  lemma HunkStartReads(s: string)
    ensures HunkStart("@@ -" + s) == AfterOld(s)
  {
    PrefixDrops("@@ -", s);
  }

  /** A printed hunk header gives back the new-file line its hunk starts at. */
  lemma HeadReads(d: DiffLine)
    requires d.Head?
    ensures TokenOf(PrintLine(d)) == At(RangeStart(d.newBefore, |NewOf(d.ops)|))
  {
    var tail := " @@" + d.section;
    PrefixDrops(" @@", d.section);
    var n := PrintRange(d.newBefore, |NewOf(d.ops)|) + tail;
    NewStartReads(d.newBefore, |NewOf(d.ops)|, tail);
    AfterOldReads(d.oldBefore, OldCount(d.ops), n);
    HunkStartReads(PrintRange(d.oldBefore, OldCount(d.ops)) + (" +" + n));
  }

  /** Added text that would be mistaken for a file header. */
  predicate Disguised(op: Op) { op.Add? && StartsWith(op.text, "++") }

  function OpToken(op: Op): Token {
    match op
    case Keep(_) => Context
    case Del(_) => Minus
    case Add(t) => if Disguised(op) then FileHead else Plus(t)
  }

  function DiffToken(d: DiffLine): Token {
    match d
    case Head(_, n, ops, _) => At(RangeStart(n, |NewOf(ops)|))
    case Body(op) => OpToken(op)
  }

  lemma BodyReads(op: Op)
    ensures TokenOf(PrintLine(Body(op))) == OpToken(op)
  {
    var line := PrintLine(Body(op));
    assert line[0] != '@' && "@@ -"[0] == '@';
    assert line[1..] == op.text;
    match op {
      case Keep(_) => assert line[0] == ' ';
      case Del(_) => assert line[0] == '-';
      case Add(t) =>
        assert line[..1] == "+";
        assert "+++" == "+" + "++";
        if "+++" <= line { assert line[1..3] == "++"; assert t[..2] == "++"; }
        if "++" <= t { assert line[..3] == "+" + t[..2]; }
    }
  }

  function DiffTokens(ds: seq<DiffLine>): (r: seq<Token>)
    ensures |r| == |ds|
  {
    seq(|ds|, i requires 0 <= i < |ds| => DiffToken(ds[i]))
  }

  /** Every printed line is read for what it is. */
  lemma PrintedReads(ds: seq<DiffLine>)
    ensures Tokens(PrintLines(ds)) == DiffTokens(ds)
  {
    forall i | 0 <= i < |ds| ensures TokenOf(PrintLine(ds[i])) == DiffToken(ds[i]) {
      if ds[i].Head? { HeadReads(ds[i]); } else { BodyReads(ds[i].op); }
    }
  }

  lemma TokensConcat(a: seq<string>, b: seq<string>)
    ensures Tokens(a + b) == Tokens(a) + Tokens(b)
  {
  }

  function OpTokens(ops: seq<Op>): (r: seq<Token>)
    ensures |r| == |ops|
  {
    seq(|ops|, i requires 0 <= i < |ops| => OpToken(ops[i]))
  }

  /** The tokens of a hunk and what follows it. */
  lemma HunkTokens(h: DiffLine, ops: seq<Op>, rest: seq<DiffLine>)
    ensures DiffTokens([h] + Bodies(ops) + rest) == [DiffToken(h)] + (OpTokens(ops) + DiffTokens(rest))
  {
    var l := [h] + Bodies(ops) + rest;
    var r := [DiffToken(h)] + (OpTokens(ops) + DiffTokens(rest));
    forall i | 0 <= i < |l| ensures DiffTokens(l)[i] == r[i] {
      if 1 <= i <= |ops| { assert l[i] == Body(ops[i - 1]); }
      if i > |ops| { assert l[i] == rest[i - 1 - |ops|]; }
    }
  }

  // --- reading them ---

  /** No added text starts with `++`. */
  predicate Plain(ps: seq<Part>) {
    ps == [] || ((ps[0].Hunk? ==> PlainOps(ps[0].ops)) && Plain(ps[1..]))
  }

  predicate PlainOps(ops: seq<Op>) { forall j :: 0 <= j < |ops| ==> !Disguised(ops[j]) }

  lemma {:induction false} ReadOps(ops: seq<Op>, rest: seq<Token>, at: nat)
    requires PlainOps(ops)
    ensures ReadFrom(OpTokens(ops) + rest, at) == Added(NewOf(ops), at) + ReadFrom(rest, at + |NewOf(ops)|)
  {
    if ops == [] {
      assert OpTokens(ops) + rest == rest;
    } else {
      var tail := OpTokens(ops[1..]) + rest;
      var all := OpTokens(ops) + rest;
      assert all[0] == OpToken(ops[0]) && all[1..] == tail;
      assert !Disguised(ops[0]);
      if ops[0].Del? {
        ReadOps(ops[1..], rest, at);
      } else {
        ReadOps(ops[1..], rest, at + 1);
        assert NewOf(ops)[1..] == NewOf(ops[1..]);
      }
    }
  }

  lemma {:induction false} AddedKept(lines: seq<string>, rest: seq<NewLine>, at: nat)
    ensures Added(Kept(lines) + rest, at) == Added(rest, at + |lines|)
  {
    if lines == [] {
      assert Kept(lines) + rest == rest;
    } else {
      assert (Kept(lines) + rest)[1..] == Kept(lines[1..]) + rest;
      AddedKept(lines[1..], rest, at + 1);
    }
  }

  lemma {:induction false} AddedConcat(a: seq<NewLine>, b: seq<NewLine>, at: nat)
    ensures Added(a + b, at) == Added(a, at) + Added(b, at + |a|)
  {
    if a == [] {
      assert a + b == b;
    } else {
      assert (a + b)[0] == a[0] && (a + b)[1..] == a[1..] + b;
      AddedConcat(a[1..], b, at + 1);
      var first: seq<Numbered> := if a[0].added then [(at, a[0].text)] else [];
      var x, y := Added(a[1..], at + 1), Added(b, at + |a|);
      assert Added(a, at) == first + x;
      assert Added(a + b, at) == first + (x + y);
      assert first + (x + y) == (first + x) + y;
    }
  }

  /** Every hunk header resets the counter, so what it was before does not matter. */
  lemma {:induction false} ReadParts(ps: seq<Part>, o: nat, n: nat, at: nat)
    requires Plain(ps)
    ensures ReadFrom(DiffTokens(Layout(ps, o, n)), at) == Added(NewFile(ps), n + 1)
    decreases |ps|
  {
    if ps != [] {
      var tail := ps[1..];
      if ps[0].Skipped? {
        var lines := ps[0].lines;
        ReadParts(tail, o + |lines|, n + |lines|, at);
        AddedKept(lines, NewFile(tail), n + 1);
      } else {
        ReadHunk(ps, o, n, at);
        var ops := ps[0].ops;
        var k := |NewOf(ops)|;
        ReadParts(tail, o + OldCount(ops), n + k, RangeStart(n, k) + k);
        AddedConcat(NewOf(ops), NewFile(tail), n + 1);
      }
    }
  }

  lemma ReadHunk(ps: seq<Part>, o: nat, n: nat, at: nat)
    requires Plain(ps) && ps != [] && ps[0].Hunk?
    ensures var ops := ps[0].ops; var k := |NewOf(ops)|;
            var rest := DiffTokens(Layout(ps[1..], o + OldCount(ops), n + k));
            ReadFrom(DiffTokens(Layout(ps, o, n)), at)
                == Added(NewOf(ops), n + 1) + ReadFrom(rest, RangeStart(n, k) + k)
  {
    var ops := ps[0].ops;
    var k := |NewOf(ops)|;
    var h := Head(o, n, ops, ps[0].section);
    var after := Layout(ps[1..], o + OldCount(ops), n + k);
    HunkTokens(h, ops, after);
    var body := OpTokens(ops) + DiffTokens(after);
    assert ([DiffToken(h)] + body)[1..] == body;
    ReadOps(ops, DiffTokens(after), RangeStart(n, k));
    if k == 0 { assert NewOf(ops) == []; }
  }

  // --- exactly when ---

  function Pluses(ts: seq<Token>): nat {
    if ts == [] then 0 else (if ts[0].Plus? then 1 else 0) + Pluses(ts[1..])
  }

  lemma {:induction false} ReadCount(ts: seq<Token>, at: nat)
    ensures |ReadFrom(ts, at)| == Pluses(ts)
    decreases |ts|
  {
    if ts != [] {
      match ts[0] {
        case At(n) => ReadCount(ts[1..], n);
        case Plus(_) => ReadCount(ts[1..], at + 1);
        case Context => ReadCount(ts[1..], at + 1);
        case FileHead => ReadCount(ts[1..], at);
        case Minus => ReadCount(ts[1..], at);
      }
    }
  }

  lemma {:induction false} PlusesConcat(a: seq<Token>, b: seq<Token>)
    ensures Pluses(a + b) == Pluses(a) + Pluses(b)
  {
    if a == [] {
      assert a + b == b;
    } else {
      assert (a + b)[1..] == a[1..] + b;
      PlusesConcat(a[1..], b);
    }
  }

  /** A disguised line is one line fewer. */
  lemma {:induction false} OpsCount(ops: seq<Op>, at: nat)
    ensures Pluses(OpTokens(ops)) <= |Added(NewOf(ops), at)|
    ensures !PlainOps(ops) ==> Pluses(OpTokens(ops)) < |Added(NewOf(ops), at)|
  {
    if ops != [] {
      var tail := ops[1..];
      assert OpTokens(ops)[1..] == OpTokens(tail);
      assert PlainOps(tail) && !Disguised(ops[0]) ==> PlainOps(ops);
      if ops[0].Del? {
        OpsCount(tail, at);
      } else {
        OpsCount(tail, at + 1);
        assert NewOf(ops)[1..] == NewOf(tail);
      }
    }
  }

  lemma HunkPluses(h: DiffLine, ops: seq<Op>, after: seq<DiffLine>)
    requires h.Head?
    ensures Pluses(DiffTokens([h] + Bodies(ops) + after)) == Pluses(OpTokens(ops)) + Pluses(DiffTokens(after))
  {
    HunkTokens(h, ops, after);
    PlusesConcat([DiffToken(h)], OpTokens(ops) + DiffTokens(after));
    PlusesConcat(OpTokens(ops), DiffTokens(after));
  }

  /** What a hunk adds to the counts of the script after it. */
  lemma HunkSplitsPluses(ps: seq<Part>, o: nat, n: nat)
    requires ps != [] && ps[0].Hunk?
    ensures var ops, k := ps[0].ops, |NewOf(ps[0].ops)|;
            Pluses(DiffTokens(Layout(ps, o, n))) ==
            Pluses(OpTokens(ops)) + Pluses(DiffTokens(Layout(ps[1..], o + OldCount(ops), n + k)))
  {
    var ops, k := ps[0].ops, |NewOf(ps[0].ops)|;
    HunkPluses(Head(o, n, ops, ps[0].section), ops, Layout(ps[1..], o + OldCount(ops), n + k));
  }

  lemma HunkSplitsAdded(ps: seq<Part>, n: nat)
    requires ps != [] && ps[0].Hunk?
    ensures var ops, k := ps[0].ops, |NewOf(ps[0].ops)|;
            |Added(NewFile(ps), n + 1)| == |Added(NewOf(ops), n + 1)| + |Added(NewFile(ps[1..]), n + k + 1)|
  {
    AddedConcat(NewOf(ps[0].ops), NewFile(ps[1..]), n + 1);
  }

  /** The tokens that count as added are no more than the added lines, and fewer with one disguised. */
  predicate Counted(ps: seq<Part>, o: nat, n: nat) {
    var pluses, added := Pluses(DiffTokens(Layout(ps, o, n))), |Added(NewFile(ps), n + 1)|;
    pluses <= added && (!Plain(ps) ==> pluses < added)
  }

  lemma SkippedCounts(ps: seq<Part>, o: nat, n: nat)
    requires ps != [] && ps[0].Skipped? && Counted(ps[1..], o + |ps[0].lines|, n + |ps[0].lines|)
    ensures Counted(ps, o, n)
  {
    AddedKept(ps[0].lines, NewFile(ps[1..]), n + 1);
  }

  lemma HunkCounts(ps: seq<Part>, o: nat, n: nat)
    requires ps != [] && ps[0].Hunk? && Counted(ps[1..], o + OldCount(ps[0].ops), n + |NewOf(ps[0].ops)|)
    ensures Counted(ps, o, n)
  {
    OpsCount(ps[0].ops, n + 1);
    HunkSplitsPluses(ps, o, n);
    HunkSplitsAdded(ps, n);
  }

  lemma {:induction false} PartsCount(ps: seq<Part>, o: nat, n: nat)
    ensures Counted(ps, o, n)
    decreases |ps|
  {
    if ps != [] {
      if ps[0].Skipped? {
        PartsCount(ps[1..], o + |ps[0].lines|, n + |ps[0].lines|);
        SkippedCounts(ps, o, n);
      } else {
        PartsCount(ps[1..], o + OldCount(ps[0].ops), n + |NewOf(ps[0].ops)|);
        HunkCounts(ps, o, n);
      }
    }
  }

  /** Lines before the first hunk only move a counter the first hunk header resets. */
  lemma {:induction false} PreambleAddsNothing(ts: seq<Token>, rest: seq<Token>, at: nat) returns (at': nat)
    requires forall i :: 0 <= i < |ts| ==> !ts[i].At? && !ts[i].Plus?
    ensures ReadFrom(ts + rest, at) == ReadFrom(rest, at')
  {
    if ts == [] {
      assert ts + rest == rest;
      at' := at;
    } else {
      assert (ts + rest)[1..] == ts[1..] + rest;
      at' := PreambleAddsNothing(ts[1..], rest, if ts[0].Context? then at + 1 else at);
    }
  }

  lemma PreambleTokens(pre: seq<string>)
    requires Preamble(pre)
    ensures forall i :: 0 <= i < |pre| ==> !Tokens(pre)[i].At? && !Tokens(pre)[i].Plus?
  {
    forall i | 0 <= i < |pre| ensures !Tokens(pre)[i].At? && !Tokens(pre)[i].Plus? {
      assert Tokens(pre)[i] == TokenOf(pre[i]);
    }
  }

  lemma ReadPrinted(pre: seq<string>, ds: seq<DiffLine>) returns (at: nat)
    requires Preamble(pre)
    ensures ReadFrom(Tokens(pre + PrintLines(ds)), 0) == ReadFrom(DiffTokens(ds), at)
  {
    TokensConcat(pre, PrintLines(ds));
    PrintedReads(ds);
    PreambleTokens(pre);
    at := PreambleAddsNothing(Tokens(pre), DiffTokens(ds), 0);
  }

  /** For every edit script printed as a unified diff, what is read back is exactly the added lines
      with their numbers in the new file, if and only if no added text starts with `++`. */
  lemma ReadBackIsExact(pre: seq<string>, ps: seq<Part>)
    requires Preamble(pre)
    ensures ReadFrom(Tokens(pre + PrintDiff(ps)), 0) == Added(NewFile(ps), 1) <==> Plain(ps)
  {
    var at := ReadPrinted(pre, Layout(ps, 0, 0));
    if Plain(ps) {
      ReadParts(ps, 0, 0, at);
    } else {
      PartsCount(ps, 0, 0);
      ReadCount(DiffTokens(Layout(ps, 0, 0)), at);
    }
  }

  // --- what the numbers mean ---

  /** The numbered lines are the added lines of the new file: each is there under its number, none
      is missing, and they come in order. */
  lemma {:induction false} AddedIsExact(ls: seq<NewLine>, at: nat)
    ensures forall n, t :: (n, t) in Added(ls, at) <==> at <= n < at + |ls| && ls[n - at] == NewLine(t, true)
    ensures forall i, j :: 0 <= i < j < |Added(ls, at)| ==> Added(ls, at)[i].0 < Added(ls, at)[j].0
    ensures forall i :: 0 <= i < |Added(ls, at)| ==> at <= Added(ls, at)[i].0 < at + |ls|
  {
    if ls != [] {
      var rest := Added(ls[1..], at + 1);
      AddedIsExact(ls[1..], at + 1);
      assert Added(ls, at) == (if ls[0].added then [(at, ls[0].text)] else []) + rest;
      forall n, t ensures (n, t) in Added(ls, at) <==> at <= n < at + |ls| && ls[n - at] == NewLine(t, true) {
        if at < n < at + |ls| { assert ls[n - at] == ls[1..][n - (at + 1)]; }
        assert (n, t) in rest ==> n > at;
        assert (n, t) in Added(ls, at) <==> (n, t) in rest || (ls[0].added && n == at && t == ls[0].text);
      }
    }
  }
}
