/** Which lines an arch `#[cfg]` attribute governs: `arch_gated_lines` in
    scripts/shared_surface_check.py. */
module GateExtents {
  import opened Text

  /** What the scan looks at in a line. */
  datatype Line = Line(
    gate: bool,    // an arch cfg attribute
    skip: bool,    // an attribute, a doc comment, or blank
    opens: nat,    // number of `{`
    closes: nat,   // number of `}`
    semi: bool)    // ends with `;`

  function Occurrences(s: string, c: char): nat {
    if s == "" then 0 else (if s[0] == c then 1 else 0) + Occurrences(s[1..], c)
  }

  /** The features of a line of source, given where the cfg pattern matches. */
  function Classify(archCfg: string -> bool, s: string): Line {
    Line(archCfg(s) && Find(s, "#[", 0).Some?,
         StartsWith(LStrip(s), "#[") || StartsWith(LStrip(s), "///") || Strip(s) == "",
         Occurrences(s, '{'), Occurrences(s, '}'),
         EndsWith(RStrip(s), ";"))
  }

  /** Open braces less closed ones on lines `j` up to but not including `k`. */
  function Depth(ls: seq<Line>, j: nat, k: nat): int
    requires j <= k <= |ls|
  {
    if j == k then 0 else Depth(ls, j, k - 1) + ls[k - 1].opens - ls[k - 1].closes
  }

  predicate HasBrace(ls: seq<Line>, j: nat, k: nat)
    requires j <= k <= |ls|
  {
    exists m :: j <= m < k && ls[m].opens > 0
  }

  /** An item that starts at `j` ends on line `k`: its braces are closed, or it has none and a
      semicolon ends it. */
  predicate Ends(ls: seq<Line>, j: nat, k: nat)
    requires j <= k < |ls|
  {
    if HasBrace(ls, j, k + 1) then Depth(ls, j, k + 1) <= 0 else ls[k].semi
  }

  /** The first line at or after `k` on which the item ends, or the number of lines. */
  function EndFrom(ls: seq<Line>, j: nat, k: nat): (r: nat)
    requires j <= k <= |ls|
    ensures k <= r <= |ls|
    decreases |ls| - k
  {
    if k == |ls| then k else if Ends(ls, j, k) then k else EndFrom(ls, j, k + 1)
  }

  lemma {:induction false} EndIsFirst(ls: seq<Line>, j: nat, k: nat)
    requires j <= k <= |ls|
    ensures EndFrom(ls, j, k) < |ls| ==> Ends(ls, j, EndFrom(ls, j, k))
    ensures forall m :: k <= m < EndFrom(ls, j, k) ==> !Ends(ls, j, m)
    decreases |ls| - k
  {
    if k < |ls| && !Ends(ls, j, k) { EndIsFirst(ls, j, k + 1); }
  }

  /** The first line at or after `j` that is the item itself, or the number of lines. */
  function ItemFrom(ls: seq<Line>, j: nat): (r: nat)
    requires j <= |ls|
    ensures j <= r <= |ls|
    decreases |ls| - j
  {
    if j == |ls| || !ls[j].skip then j else ItemFrom(ls, j + 1)
  }

  lemma {:induction false} ItemIsFirst(ls: seq<Line>, j: nat)
    requires j <= |ls|
    ensures ItemFrom(ls, j) < |ls| ==> !ls[ItemFrom(ls, j)].skip
    ensures forall m :: j <= m < ItemFrom(ls, j) ==> ls[m].skip
    decreases |ls| - j
  {
    if j < |ls| && ls[j].skip { ItemIsFirst(ls, j + 1); }
  }

  /** One past the last line the gate on line `g` governs: an item cut short by the end of the file
      is governed to the end, a gate with no item after it governs nothing. */
  function Reach(ls: seq<Line>, g: nat): (r: nat)
    requires g < |ls|
    ensures r == g || g < r <= |ls|
  {
    var j := ItemFrom(ls, g + 1);
    if j == |ls| then g
    else var k := EndFrom(ls, j, j); if k < |ls| then k + 1 else k
  }

  /** Line `n`, counted from one, is governed by some gate. */
  ghost predicate Governed(ls: seq<Line>, n: int) {
    exists g :: 0 <= g < n && g < |ls| && ls[g].gate && n <= Reach(ls, g)
  }

  /** The lines, counted from one, that some gate governs, nested gates included. */
  ghost function AllExtents(ls: seq<Line>): set<nat> {
    set n | 0 <= n <= |ls| && Governed(ls, n)
  }

  /** Half-open ranges of lines, in order and apart, each starting at a gate and reaching as far as it governs. */
  ghost predicate GateSpans(ls: seq<Line>, spans: seq<(nat, nat)>) {
    && (forall a :: 0 <= a < |spans| ==>
          spans[a].0 < spans[a].1 <= |ls| && ls[spans[a].0].gate && spans[a].1 == Reach(ls, spans[a].0))
    && (forall a, b :: 0 <= a < b < |spans| ==> spans[a].1 <= spans[b].0)
  }

  /** Line `n`, counted from one, lies in one of the ranges. */
  ghost predicate InSpans(spans: seq<(nat, nat)>, n: int) {
    exists a :: 0 <= a < |spans| && spans[a].0 < n <= spans[a].1
  }

  /** The end of the item at `j`, with the running depth and flag of the source. */
  method FindEnd(ls: seq<Line>, j: nat) returns (k: nat)
    requires j < |ls|
    ensures k == EndFrom(ls, j, j)
  {
    var depth := 0;
    var seenBrace := false;
    k := j;
    while k < |ls|
      invariant j <= k <= |ls|
      invariant depth == Depth(ls, j, k) && seenBrace == HasBrace(ls, j, k)
      invariant EndFrom(ls, j, j) == EndFrom(ls, j, k)
    {
      depth := depth + ls[k].opens - ls[k].closes;
      if ls[k].opens > 0 { seenBrace := true; }
      assert seenBrace == HasBrace(ls, j, k + 1);
      if seenBrace && depth <= 0 { return; }
      if !seenBrace && ls[k].semi { return; }
      k := k + 1;
    }
  }

  method FindItem(ls: seq<Line>, i: nat) returns (j: nat)
    requires i < |ls|
    ensures j == ItemFrom(ls, i + 1)
  {
    j := i + 1;
    while j < |ls| && ls[j].skip
      invariant i < j <= |ls| && ItemFrom(ls, i + 1) == ItemFrom(ls, j)
    {
      j := j + 1;
    }
  }

  /** From a gate to the end of what it governs; no item after the gate means the scan is over. */
  method GovernedEnd(ls: seq<Line>, i: nat) returns (reach: nat)
    requires i < |ls|
    ensures reach == Reach(ls, i)
    ensures reach == i ==> forall g :: i <= g < |ls| ==> Reach(ls, g) == g
  {
    var j := FindItem(ls, i);
    if j >= |ls| {
      ItemIsFirst(ls, i + 1);
      forall g | i <= g < |ls| ensures Reach(ls, g) == g { OnlySkips(ls, g); }
      return i;
    }
    var k := FindEnd(ls, j);
    reach := if k < |ls| then k + 1 else |ls|;
  }

  method AddLines(before: set<nat>, from: nat, to: nat) returns (covered: set<nat>)
    requires from <= to
    ensures forall m :: m in covered <==> m in before || from < m <= to
  {
    covered := before;
    for n := from to to
      invariant forall m :: m in covered <==> m in before || from < m <= n
    {
      covered := covered + {n + 1};
    }
  }

  /** If line `g` is a gate that governs anything, it lies in a range. */
  ghost predicate GateSeen(ls: seq<Line>, spans: seq<(nat, nat)>, g: nat)
    requires g < |ls|
  {
    ls[g].gate ==> InSpans(spans, g + 1) || Reach(ls, g) == g
  }

  /** The scan at line `i`: the ranges found so far, the lines covered, every gate passed in a range. */
  ghost predicate ScanAt(ls: seq<Line>, i: nat, covered: set<nat>, spans: seq<(nat, nat)>) {
    && i <= |ls|
    && GateSpans(ls, spans) && (spans != [] ==> spans[|spans| - 1].1 <= i)
    && (forall n :: n in covered <==> InSpans(spans, n))
    && (forall g :: 0 <= g < i ==> GateSeen(ls, spans, g))
  }

  lemma SpanKept(ls: seq<Line>, spans: seq<(nat, nat)>, i: nat, r: nat)
    requires i < r <= |ls| && ls[i].gate && r == Reach(ls, i)
    requires GateSpans(ls, spans) && (spans != [] ==> spans[|spans| - 1].1 <= i)
    ensures GateSpans(ls, spans + [(i, r)])
  {
    var all := spans + [(i, r)];
    forall a | 0 <= a < |all|
      ensures all[a].0 < all[a].1 <= |ls| && ls[all[a].0].gate && all[a].1 == Reach(ls, all[a].0)
    {
      if a < |spans| { assert all[a] == spans[a]; }
    }
  }

  lemma ScanPlain(ls: seq<Line>, i: nat, covered: set<nat>, spans: seq<(nat, nat)>)
    requires ScanAt(ls, i, covered, spans) && i < |ls| && !ls[i].gate
    ensures ScanAt(ls, i + 1, covered, spans)
  {
  }

  lemma ScanGate(ls: seq<Line>, i: nat, covered: set<nat>, spans: seq<(nat, nat)>, r: nat, grown: set<nat>)
    requires ScanAt(ls, i, covered, spans) && i < r <= |ls| && ls[i].gate && r == Reach(ls, i)
    requires forall m :: m in grown <==> m in covered || i < m <= r
    ensures ScanAt(ls, r, grown, spans + [(i, r)])
  {
    SpanKept(ls, spans, i, r);
    SpansGrow(spans, i, r);
    var all := spans + [(i, r)];
    forall g | 0 <= g < r ensures GateSeen(ls, all, g) {
      if g < i { assert GateSeen(ls, spans, g); }
    }
  }

  /** What a finished scan returns: the lines of disjoint ranges, each the extent of the gate it
      starts at, with every gate that governs anything inside one of them. */
  ghost predicate Scanned(ls: seq<Line>, covered: set<nat>, spans: seq<(nat, nat)>) {
    && GateSpans(ls, spans)
    && (forall n :: n in covered <==> InSpans(spans, n))
    && (forall g :: 0 <= g < |ls| ==> GateSeen(ls, spans, g))
  }

  lemma ScanEnds(ls: seq<Line>, i: nat, covered: set<nat>, spans: seq<(nat, nat)>)
    requires ScanAt(ls, i, covered, spans) && forall g :: i <= g < |ls| ==> Reach(ls, g) == g
    ensures Scanned(ls, covered, spans)
  {
    forall g | 0 <= g < |ls| ensures GateSeen(ls, spans, g) {
      if i <= g { assert Reach(ls, g) == g; }
    }
  }

  /** The scan: it jumps from the end of one governed range to look for the next gate. */
  method ArchGatedLines(ls: seq<Line>) returns (covered: set<nat>)
    ensures exists spans :: Scanned(ls, covered, spans)
  {
    ghost var spans: seq<(nat, nat)> := [];
    covered := {};
    var i := 0;
    while i < |ls|
      invariant 0 <= i <= |ls|
      invariant ScanAt(ls, i, covered, spans)
    {
      if !ls[i].gate {
        ScanPlain(ls, i, covered, spans);
        i := i + 1;
        continue;
      }
      var reach := GovernedEnd(ls, i);
      if reach == i { break; }
      var grown := AddLines(covered, i, reach);
      ScanGate(ls, i, covered, spans, reach, grown);
      covered, spans, i := grown, spans + [(i, reach)], reach;
    }
    ScanEnds(ls, i, covered, spans);
  }

  /** No gate inside an earlier gate's reach goes past it. */
  ghost predicate Contained(ls: seq<Line>) {
    forall i, g :: 0 <= i < g < |ls| && ls[i].gate && ls[g].gate && g < Reach(ls, i) ==> Reach(ls, g) <= Reach(ls, i)
  }

  /** Jumping loses nothing: where no gate inside an earlier gate's reach goes past it, the lines covered
      are exactly those some gate governs, nested gates included. */
  lemma ScanLosesNothing(ls: seq<Line>, covered: set<nat>, spans: seq<(nat, nat)>)
    requires Scanned(ls, covered, spans) && Contained(ls)
    ensures covered == AllExtents(ls)
  {
    SkippedGatesAddNothing(ls, spans);
  }

  lemma OnlySkips(ls: seq<Line>, g: nat)
    requires g < |ls| && forall m :: g < m < |ls| ==> ls[m].skip
    ensures Reach(ls, g) == g
  {
    ItemIsFirst(ls, g + 1);
  }

  lemma SpansGrow(spans: seq<(nat, nat)>, from: nat, to: nat)
    ensures forall n :: InSpans(spans + [(from, to)], n) <==> InSpans(spans, n) || from < n <= to
  {
    var all := spans + [(from, to)];
    forall n ensures InSpans(all, n) <==> InSpans(spans, n) || from < n <= to {
      if InSpans(spans, n) {
        var a :| 0 <= a < |spans| && spans[a].0 < n <= spans[a].1;
        assert all[a] == spans[a];
      }
      if from < n <= to { assert all[|spans|] == (from, to); }
    }
  }

  // --- nothing is lost by jumping ---

  /** Attributes, doc comments and blank lines carry no brace and no closing semicolon; every gate is
      such a line; and the item of a gate ends, by its own brace or semicolon, before the block
      around it is closed. */
  ghost predicate WellGated(ls: seq<Line>) {
    && (forall m :: 0 <= m < |ls| && ls[m].skip ==> ls[m].opens == 0 && ls[m].closes == 0 && !ls[m].semi)
    && (forall g :: 0 <= g < |ls| && ls[g].gate ==> ls[g].skip)
    && (forall g :: 0 <= g < |ls| && ls[g].gate ==> OwnEnd(ls, ItemFrom(ls, g + 1)))
  }

  ghost predicate OwnEnd(ls: seq<Line>, j: nat)
    requires j <= |ls|
  {
    j == |ls| ||
    (EndFrom(ls, j, j) < |ls| && forall m :: j < m <= EndFrom(ls, j, j) ==> Depth(ls, j, m) >= 0)
  }

  lemma {:induction false} DepthSplit(ls: seq<Line>, j: nat, m: nat, k: nat)
    requires j <= m <= k <= |ls|
    ensures Depth(ls, j, k) == Depth(ls, j, m) + Depth(ls, m, k)
    decreases k
  {
    if m < k { DepthSplit(ls, j, m, k - 1); }
  }

  lemma {:induction false} DepthOfSkips(ls: seq<Line>, j: nat, k: nat)
    requires j <= k <= |ls|
    requires forall m :: j <= m < k ==> ls[m].opens == 0 && ls[m].closes == 0
    ensures Depth(ls, j, k) == 0
    decreases k
  {
    if j < k { DepthOfSkips(ls, j, k - 1); }
  }

  /** Lines without `{` cannot have closed anything if the depth never went negative. */
  lemma {:induction false} NothingClosedYet(ls: seq<Line>, j: nat, b: nat)
    requires j <= b <= |ls| && !HasBrace(ls, j, b)
    requires forall m :: j < m <= b ==> Depth(ls, j, m) >= 0
    ensures forall m :: j <= m < b ==> ls[m].opens == 0 && ls[m].closes == 0
    ensures Depth(ls, j, b) == 0
    decreases b
  {
    if j < b {
      assert ls[b - 1].opens == 0;
      assert !HasBrace(ls, j, b - 1);
      NothingClosedYet(ls, j, b - 1);
      assert Depth(ls, j, b) >= 0;
    }
  }

  /** The item of a gate met inside a brace-less item ends with it. */
  lemma NestedInStatement(ls: seq<Line>, j: nat, g: nat)
    requires WellGated(ls) && j < g < |ls| && ls[g].gate
    requires EndFrom(ls, j, j) < |ls| && g <= EndFrom(ls, j, j) && !HasBrace(ls, j, EndFrom(ls, j, j) + 1)
    ensures Reach(ls, g) <= EndFrom(ls, j, j) + 1
  {
    var k := EndFrom(ls, j, j);
    EndIsFirst(ls, j, j);
    assert ls[k].semi && g != k;
    var j' := ItemFrom(ls, g + 1);
    ItemIsFirst(ls, g + 1);
    EndIsFirst(ls, j', j');
    assert j' <= k;
    assert !HasBrace(ls, j', k + 1);
    assert Ends(ls, j', k);
  }

  /** The item of a gate met before the opening brace of an item ends with it. */
  lemma NestedBeforeBrace(ls: seq<Line>, j: nat, b: nat, g: nat)
    requires j < g < b < |ls| && WellGated(ls) && OwnEnd(ls, j) && ls[g].gate
    requires EndFrom(ls, j, j) < |ls| && b <= EndFrom(ls, j, j)
    requires ls[b].opens > 0 && !HasBrace(ls, j, b)
    ensures Reach(ls, g) <= EndFrom(ls, j, j) + 1
  {
    var k := EndFrom(ls, j, j);
    EndIsFirst(ls, j, j);
    NothingClosedYet(ls, j, b);
    var j' := ItemFrom(ls, g + 1);
    ItemIsFirst(ls, g + 1);
    EndIsFirst(ls, j', j');
    assert j' <= b;
    DepthOfSkips(ls, j, j');
    DepthSplit(ls, j, j', k + 1);
    assert HasBrace(ls, j', k + 1) && HasBrace(ls, j, k + 1);
    assert Ends(ls, j', k);
  }

  /** The item of a gate met inside braces ends before they close. */
  lemma NestedInBraces(ls: seq<Line>, j: nat, b: nat, g: nat)
    requires WellGated(ls) && j <= b < g < |ls| && ls[g].gate
    requires EndFrom(ls, j, j) < |ls| && g <= EndFrom(ls, j, j) && ls[b].opens > 0
    ensures Reach(ls, g) <= EndFrom(ls, j, j) + 1
  {
    var k := EndFrom(ls, j, j);
    EndIsFirst(ls, j, j);
    ItemIsFirst(ls, g + 1);
    assert HasBrace(ls, j, k + 1) && HasBrace(ls, j, g) && HasBrace(ls, j, k);
    assert !Ends(ls, j, g - 1);
    assert Depth(ls, j, g) > 0;
    var j' := ItemFrom(ls, g + 1);
    assert !Ends(ls, j, k - 1);
    assert Depth(ls, j, k) > 0 && ls[k].closes > 0;
    assert j' <= k;
    DepthOfSkips(ls, g, j');
    DepthSplit(ls, j, g, j');
    DepthSplit(ls, j, j', k + 1);
    assert Depth(ls, j', k + 1) < 0;
    assert OwnEnd(ls, j');
  }

  /** A gate inside a governed range governs nothing outside it. */
  lemma NestedGate(ls: seq<Line>, i: nat, g: nat)
    requires WellGated(ls) && i < g < |ls| && ls[i].gate && ls[g].gate && g < Reach(ls, i)
    ensures Reach(ls, g) <= Reach(ls, i)
  {
    var j := ItemFrom(ls, i + 1);
    assert OwnEnd(ls, j);
    var k := EndFrom(ls, j, j);
    ItemIsFirst(ls, i + 1);
    if g < j {
      ItemIsFirst(ls, g + 1);
      assert ItemFrom(ls, g + 1) == j;
    } else if !HasBrace(ls, j, k + 1) {
      NestedInStatement(ls, j, g);
    } else {
      var b := FirstBrace(ls, j, k + 1);
      if g < b { NestedBeforeBrace(ls, j, b, g); } else { NestedInBraces(ls, j, b, g); }
    }
  }

  /** So source where gates are attribute lines and their items end in their own block is scanned whole. */
  lemma WellGatedIsContained(ls: seq<Line>)
    requires WellGated(ls)
    ensures Contained(ls)
  {
    forall i, g | 0 <= i < g < |ls| && ls[i].gate && ls[g].gate && g < Reach(ls, i)
      ensures Reach(ls, g) <= Reach(ls, i)
    {
      NestedGate(ls, i, g);
    }
  }

  /** No gate inside an earlier gate's reach goes past it, and every gated item ends before the file does. */
  ghost predicate Scannable(ls: seq<Line>) {
    && Contained(ls)
    && forall g :: 0 <= g < |ls| && ls[g].gate ==> EndsInside(ls, ItemFrom(ls, g + 1))
  }

  /** There is no item there, or it ends. */
  predicate EndsInside(ls: seq<Line>, j: nat)
    requires j <= |ls|
  {
    j == |ls| || EndFrom(ls, j, j) < |ls|
  }

  lemma WellGatedIsScannable(ls: seq<Line>)
    requires WellGated(ls)
    ensures Scannable(ls)
  {
    WellGatedIsContained(ls);
    forall g | 0 <= g < |ls| && ls[g].gate
      ensures EndsInside(ls, ItemFrom(ls, g + 1))
    {
      assert OwnEnd(ls, ItemFrom(ls, g + 1));
    }
  }

  lemma FirstBrace(ls: seq<Line>, j: nat, k: nat) returns (b: nat)
    requires j <= k <= |ls| && HasBrace(ls, j, k)
    ensures j <= b < k && ls[b].opens > 0 && !HasBrace(ls, j, b)
  {
    b := j;
    while ls[b].opens == 0
      invariant j <= b < k && !HasBrace(ls, j, b)
      invariant HasBrace(ls, b, k)
      decreases k - b
    {
      b := b + 1;
    }
  }

  lemma GovernedIsSpanned(ls: seq<Line>, spans: seq<(nat, nat)>, g: nat, n: nat)
    requires Contained(ls) && GateSpans(ls, spans)
    requires g < n && g < |ls| && ls[g].gate && n <= Reach(ls, g) && InSpans(spans, g + 1)
    ensures InSpans(spans, n)
  {
    var a :| 0 <= a < |spans| && spans[a].0 < g + 1 <= spans[a].1;
    assert spans[a].0 < g ==> Reach(ls, g) <= Reach(ls, spans[a].0);
    assert spans[a].0 < n <= spans[a].1;
  }

  /** Where the spans hold every gate that governs anything, they hold everything governed. */
  lemma SkippedGatesAddNothing(ls: seq<Line>, spans: seq<(nat, nat)>)
    requires Contained(ls) && GateSpans(ls, spans)
    requires forall g :: 0 <= g < |ls| ==> GateSeen(ls, spans, g)
    ensures forall n :: InSpans(spans, n) <==> n <= |ls| && Governed(ls, n)
  {
    forall n ensures InSpans(spans, n) <==> n <= |ls| && Governed(ls, n) {
      if InSpans(spans, n) {
        var a :| 0 <= a < |spans| && spans[a].0 < n <= spans[a].1;
        var g := spans[a].0;
        assert ls[g].gate && n <= Reach(ls, g);
      }
      if Governed(ls, n) {
        var g :| 0 <= g < n && g < |ls| && ls[g].gate && n <= Reach(ls, g);
        assert GateSeen(ls, spans, g);
        GovernedIsSpanned(ls, spans, g, n);
      }
    }
  }

  lemma {:induction false} NoOccurrences(s: string, c: char)
    requires c !in s
    ensures Occurrences(s, c) == 0
  {
    if s != "" { NoOccurrences(s[1..], c); }
  }

  /** The features of a line without braces or surrounding whitespace. */
  lemma ClassifyPlain(archCfg: string -> bool, s: string)
    requires s != "" && !IsSpace(s[0]) && !IsSpace(s[|s| - 1]) && '{' !in s && '}' !in s
    ensures Classify(archCfg, s) ==
            Line(archCfg(s) && Find(s, "#[", 0).Some?, StartsWith(s, "#[") || StartsWith(s, "///"), 0, 0,
                 s[|s| - 1] == ';')
  {
    NoOccurrences(s, '{');
    NoOccurrences(s, '}');
    assert RStrip(s) == s && LStrip(s) == s;
    assert s[|s| - 1..] == [s[|s| - 1]];
  }

  /** A line of source with no brace in it and no whitespace around it. */
  predicate Bare(s: string) { s != "" && !IsSpace(s[0]) && !IsSpace(s[|s| - 1]) && '{' !in s && '}' !in s }

  /** A line that opens with an attribute the cfg pattern matches. */
  predicate GateLine(archCfg: string -> bool, s: string) { Bare(s) && StartsWith(s, "#[") && archCfg(s) }

  /** A line of an ordinary statement. */
  predicate StatementLine(archCfg: string -> bool, s: string) {
    Bare(s) && !StartsWith(s, "#[") && !StartsWith(s, "///") && !archCfg(s)
  }

  lemma ClassifyShapes(archCfg: string -> bool, s: string)
    ensures GateLine(archCfg, s) ==> Classify(archCfg, s) == Line(true, true, 0, 0, s[|s| - 1] == ';')
    ensures StatementLine(archCfg, s) ==> Classify(archCfg, s) == Line(false, false, 0, 0, s[|s| - 1] == ';')
  {
    if Bare(s) {
      ClassifyPlain(archCfg, s);
      assert s[0..] == s;
    }
  }

  /** The condition is needed. Four lines: a gate, a statement begun, a gate on the line that ends it, another
      statement. The second gate is read as governing the statement after its own: it lies inside the first
      gate's range, reaches past it, and the scan never covers that line. */
  lemma SameLineGateEscapes(archCfg: string -> bool, gate: string, begun: string, gated: string, next: string,
                            covered: set<nat>, spans: seq<(nat, nat)>)
    requires GateLine(archCfg, gate) && GateLine(archCfg, gated) && gate[|gate| - 1] != ';' && gated[|gated| - 1] == ';'
    requires StatementLine(archCfg, begun) && StatementLine(archCfg, next) && begun[|begun| - 1] != ';'
    requires next[|next| - 1] == ';'
    requires Scanned([Classify(archCfg, gate), Classify(archCfg, begun), Classify(archCfg, gated),
        Classify(archCfg, next)], covered, spans)
    ensures Governed([Classify(archCfg, gate), Classify(archCfg, begun), Classify(archCfg, gated),
        Classify(archCfg, next)], 4)
    ensures 4 !in covered
  {
    ClassifyShapes(archCfg, gate);
    ClassifyShapes(archCfg, begun);
    ClassifyShapes(archCfg, gated);
    ClassifyShapes(archCfg, next);
    EscapesFrom([Classify(archCfg, gate), Classify(archCfg, begun), Classify(archCfg, gated), Classify(archCfg, next)],
                covered, spans);
  }

  lemma GateLineExample(archCfg: string -> bool)
    requires archCfg("#[cfg(target_arch = \"arm\")]")
    ensures GateLine(archCfg, "#[cfg(target_arch = \"arm\")]")
  {
  }

  lemma GatedLineExample(archCfg: string -> bool)
    requires archCfg("#[cfg(target_arch = \"arm\")] f();")
    ensures GateLine(archCfg, "#[cfg(target_arch = \"arm\")] f();")
  {
  }

  lemma StatementExample(archCfg: string -> bool)
    requires !archCfg("let x =") && !archCfg("g();")
    ensures StatementLine(archCfg, "let x =") && StatementLine(archCfg, "g();")
  {
  }

  /** Four such lines. */
  lemma SameLineExample(archCfg: string -> bool, covered: set<nat>, spans: seq<(nat, nat)>)
    requires archCfg("#[cfg(target_arch = \"arm\")]") && archCfg("#[cfg(target_arch = \"arm\")] f();")
    requires !archCfg("let x =") && !archCfg("g();")
    requires Scanned(SameLine(archCfg), covered, spans)
    ensures Governed(SameLine(archCfg), 4) && 4 !in covered
  {
    GateLineExample(archCfg);
    GatedLineExample(archCfg);
    StatementExample(archCfg);
    LastCharacters();
    SameLineGateEscapes(archCfg, "#[cfg(target_arch = \"arm\")]", "let x =", "#[cfg(target_arch = \"arm\")] f();",
        "g();", covered, spans);
  }

  function SameLine(archCfg: string -> bool): seq<Line> {
    [Classify(archCfg, "#[cfg(target_arch = \"arm\")]"), Classify(archCfg, "let x ="),
     Classify(archCfg, "#[cfg(target_arch = \"arm\")] f();"), Classify(archCfg, "g();")]
  }

  lemma LastCharacters()
    ensures var s := "#[cfg(target_arch = \"arm\")]"; s[|s| - 1] == ']'
    ensures var s := "#[cfg(target_arch = \"arm\")] f();"; s[|s| - 1] == ';'
    ensures "let x ="[6] == '=' && |"let x ="| == 7 && "g();"[3] == ';' && |"g();"| == 4
  {
  }

  lemma EscapesFrom(ls: seq<Line>, covered: set<nat>, spans: seq<(nat, nat)>)
    requires ls == [Line(true, true, 0, 0, false), Line(false, false, 0, 0, false),
                    Line(true, true, 0, 0, true), Line(false, false, 0, 0, true)]
    requires Scanned(ls, covered, spans)
    ensures Governed(ls, 4) && 4 !in covered
  {
    assert !HasBrace(ls, 1, 2) && !HasBrace(ls, 1, 3) && !HasBrace(ls, 3, 4);
    assert EndFrom(ls, 1, 1) == 2;
    assert EndFrom(ls, 3, 3) == 3;
    assert Reach(ls, 0) == 3;
    assert ls[2].gate && Reach(ls, 2) == 4;
    assert GateSeen(ls, spans, 0);
    var a :| 0 <= a < |spans| && spans[a].0 < 1 <= spans[a].1;
    assert spans[a] == (0, 3);
  }
}
