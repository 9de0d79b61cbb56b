/** Removing what architecture gates guard: `strip_arch_gated` of scripts/arch_seam_check.py. */
module StripGated {
  import opened Text

  /** A match of the gate pattern: `text[start..end]`. */
  datatype Gate = Gate(start: nat, end: nat)

  /** Matches as an iterator over a pattern gives them: in order, not overlapping, not empty. */
  predicate Ordered(gates: seq<Gate>, from: int, n: int)
    decreases |gates|
  {
    gates == [] ||
    (from <= gates[0].start < gates[0].end <= n && Ordered(gates[1..], gates[0].end, n))
  }

  function SkipSpace(text: string, j: nat): (r: nat)
    requires j <= |text|
    ensures j <= r <= |text|
    decreases |text| - j
  {
    if j < |text| && IsSpace(text[j]) then SkipSpace(text, j + 1) else j
  }

  predicate IsStop(c: char) { c == '{' || c == ';' || c == NEWLINE }

  /** The first `{`, `;` or newline at or after `j`; the end of the text when there is none. */
  function Stop(text: string, j: nat): (r: nat)
    requires j <= |text|
    ensures j <= r <= |text|
    decreases |text| - j
  {
    if j == |text| || IsStop(text[j]) then j else Stop(text, j + 1)
  }

  function After(c: char, depth: int): int {
    if c == '{' then depth + 1 else if c == '}' then depth - 1 else depth
  }

  /** One past the `}` that brings the depth back to zero, or the end of the text. */
  function BlockEnd(text: string, k: nat, depth: int): (r: nat)
    requires k <= |text|
    ensures k <= r <= |text|
    decreases |text| - k
  {
    if k == |text| then k
    else if text[k] == '}' && depth == 1 then k + 1
    else BlockEnd(text, k + 1, After(text[k], depth))
  }

  /** Where the region a gate guards ends, given the stop after the gate. */
  function RegionEnd(text: string, stop: nat): (r: nat)
    requires stop <= |text|
    ensures stop <= r <= |text|
  {
    if stop == |text| then stop
    else if text[stop] == '{' then BlockEnd(text, stop, 0)
    else stop + 1
  }

  /** A deleted interval, and the stop found after its gate. */
  datatype Cut = Cut(start: nat, stop: nat, end: nat)

  function CutOf(text: string, g: Gate): Cut
    requires g.start < g.end <= |text|
  {
    var stop := Stop(text, SkipSpace(text, g.end));
    Cut(g.start, stop, RegionEnd(text, stop))
  }

  /** The deleted intervals, from position `i` on. */
  function Cuts(text: string, gates: seq<Gate>, i: nat): seq<Cut>
    requires forall k :: 0 <= k < |gates| ==> gates[k].start < gates[k].end <= |text|
    decreases |gates|
  {
    if gates == [] then []
    else if gates[0].start < i then Cuts(text, gates[1..], i)
    else var c := CutOf(text, gates[0]); [c] + Cuts(text, gates[1..], c.end)
  }

  /** Intervals in order, disjoint, not empty, inside the text. */
  predicate InOrder(cuts: seq<Cut>, i: int, n: int)
    decreases |cuts|
  {
    cuts == [] ||
    (i <= cuts[0].start < cuts[0].stop <= cuts[0].end <= n && InOrder(cuts[1..], cuts[0].end, n))
  }

  /** What is left of `text[i..]` once the intervals are deleted. */
  function Left(text: string, cuts: seq<Cut>, i: nat): string
    requires i <= |text| && InOrder(cuts, i, |text|)
    decreases |cuts|
  {
    if cuts == [] then text[i..]
    else text[i..cuts[0].start] + Left(text, cuts[1..], cuts[0].end)
  }

  lemma {:induction false} OrderedWithin(gates: seq<Gate>, from: int, n: int)
    requires Ordered(gates, from, n)
    ensures forall k :: 0 <= k < |gates| ==> from <= gates[k].start < gates[k].end <= n
    decreases |gates|
  {
    if gates != [] {
      OrderedWithin(gates[1..], gates[0].end, n);
      assert forall k :: 1 <= k < |gates| ==> gates[k] == gates[1..][k - 1];
    }
  }

  lemma {:induction false} StopIsFirst(text: string, j: nat)
    requires j <= |text|
    ensures var r := Stop(text, j);
            && (r < |text| ==> IsStop(text[r]))
            && forall k :: j <= k < r ==> !IsStop(text[k])
    decreases |text| - j
  {
    if j < |text| && !IsStop(text[j]) { StopIsFirst(text, j + 1); }
  }

  /** The deleted intervals are disjoint and in order, whatever the gates guard. */
  lemma {:induction false} CutsAreDisjoint(text: string, gates: seq<Gate>, from: int, i: nat)
    requires Ordered(gates, from, |text|) && i <= |text|
    requires forall k :: 0 <= k < |gates| ==> gates[k].start < gates[k].end <= |text|
    ensures InOrder(Cuts(text, gates, i), i, |text|)
    decreases |gates|
  {
    if gates != [] {
      var g := gates[0];
      if g.start < i {
        CutsAreDisjoint(text, gates[1..], g.end, i);
      } else {
        var c := CutOf(text, g);
        CutsAreDisjoint(text, gates[1..], g.end, c.end);
        assert Cuts(text, gates, i)[1..] == Cuts(text, gates[1..], c.end);
      }
    }
  }

  /** Every deleted interval is the region of a gate. */
  lemma {:induction false} CutsStartAtGates(text: string, gates: seq<Gate>, i: nat, c: Cut) returns (k: nat)
    requires forall k :: 0 <= k < |gates| ==> gates[k].start < gates[k].end <= |text|
    requires c in Cuts(text, gates, i)
    ensures k < |gates| && c == CutOf(text, gates[k])
    decreases |gates|
  {
    var g := gates[0];
    if g.start >= i && c == CutOf(text, g) {
      k := 0;
    } else {
      var j := CutsStartAtGates(text, gates[1..], if g.start < i then i else CutOf(text, g).end, c);
      k := j + 1;
    }
  }

  /** Every gate starts in a deleted interval, or before the position the scan has reached. */
  lemma {:induction false} GatesStartInCuts(text: string, gates: seq<Gate>, i: nat, k: nat) returns (c: Cut)
    requires forall k :: 0 <= k < |gates| ==> gates[k].start < gates[k].end <= |text|
    requires Ordered(gates, 0, |text|) && k < |gates| && gates[k].start >= i
    ensures c in Cuts(text, gates, i) && c.start <= gates[k].start < c.end
    decreases |gates|
  {
    var g := gates[0];
    OrderedWithin(gates[1..], g.end, |text|);
    assert k > 0 ==> gates[k] == gates[1..][k - 1];
    if g.start < i {
      c := GatesStartInCuts(text, gates[1..], i, k - 1);
    } else {
      c := CutOf(text, g);
      if k > 0 && c.end <= gates[k].start {
        c := GatesStartInCuts(text, gates[1..], c.end, k - 1);
      }
    }
  }

  // --- the scan ---

  method FindStop(text: string, j: nat) returns (stop: nat)
    requires j <= |text|
    ensures stop == Stop(text, j)
  {
    var brace := Find(text, "{", j);
    var semi := Find(text, ";", j);
    var nl := Find(text, [NEWLINE], j);
    stop := |text|;
    if brace.Some? && brace.value < stop { stop := brace.value; }
    if semi.Some? && semi.value < stop { stop := semi.value; }
    if nl.Some? && nl.value < stop { stop := nl.value; }
    StopIsFirst(text, j);
    var s := Stop(text, j);
    if s < |text| {
      assert "{" <= text[s..] || ";" <= text[s..] || [NEWLINE] <= text[s..];
    }
  }

  method FindRegionEnd(text: string, stop: nat) returns (end: nat)
    requires stop <= |text|
    ensures end == RegionEnd(text, stop)
  {
    if stop == |text| { return stop; }
    if text[stop] != '{' { return stop + 1; }
    var depth, k := 0, stop;
    while k < |text|
      invariant stop <= k <= |text|
      invariant BlockEnd(text, k, depth) == BlockEnd(text, stop, 0)
    {
      if text[k] == '{' {
        depth := depth + 1;
      } else if text[k] == '}' {
        depth := depth - 1;
        if depth == 0 { return k + 1; }
      }
      k := k + 1;
    }
    end := k;
  }

  method StripArchGated(text: string, gates: seq<Gate>) returns (out: string)
    requires Ordered(gates, 0, |text|)
    ensures (forall k :: 0 <= k < |gates| ==> gates[k].start < gates[k].end <= |text|)
    ensures InOrder(Cuts(text, gates, 0), 0, |text|)
    ensures out == Left(text, Cuts(text, gates, 0), 0)
  {
    OrderedWithin(gates, 0, |text|);
    CutsAreDisjoint(text, gates, 0, 0);
    out := "";
    var i: nat := 0;
    ghost var from := 0;
    for n := 0 to |gates|
      invariant i <= |text| && Ordered(gates[n..], from, |text|)
      invariant InOrder(Cuts(text, gates[n..], i), i, |text|)
      invariant Left(text, Cuts(text, gates, 0), 0) == out + Left(text, Cuts(text, gates[n..], i), i)
    {
      var g := gates[n];
      assert gates[n..][1..] == gates[n + 1..];
      from := g.end;
      if g.start >= i {
        var stop := FindStop(text, SkipSpace(text, g.end));
        var end := FindRegionEnd(text, stop);
        assert CutOf(text, g) == Cut(g.start, stop, end);
        LeftStep(text, Cut(g.start, stop, end), Cuts(text, gates[n + 1..], end), i, out);
        out := out + text[i..g.start];
        i := end;
      }
    }
    out := out + text[i..];
  }

  lemma LeftStep(text: string, c: Cut, cuts: seq<Cut>, i: nat, out: string)
    requires i <= |text| && InOrder([c] + cuts, i, |text|)
    ensures InOrder(cuts, c.end, |text|)
    ensures out + Left(text, [c] + cuts, i) == out + text[i..c.start] + Left(text, cuts, c.end)
  {
    assert ([c] + cuts)[1..] == cuts;
  }

  // --- nesting depth ---

  /** Braces opened minus braces closed. */
  function Net(s: string): int {
    if s == "" then 0 else After(s[|s| - 1], Net(s[..|s| - 1]))
  }

  lemma {:induction false} NetConcat(a: string, b: string)
    ensures Net(a + b) == Net(a) + Net(b)
  {
    if b == "" {
      assert a + b == a;
    } else {
      assert (a + b)[..|a + b| - 1] == a + b[..|b| - 1];
      NetConcat(a, b[..|b| - 1]);
    }
  }

  lemma NetSplit(text: string, a: nat, b: nat, c: nat)
    requires a <= b <= c <= |text|
    ensures Net(text[a..c]) == Net(text[a..b]) + Net(text[b..c])
  {
    assert text[a..c] == text[a..b] + text[b..c];
    NetConcat(text[a..b], text[b..c]);
  }

  lemma NetNext(text: string, a: nat, k: nat)
    requires a <= k < |text|
    ensures Net(text[a..k + 1]) == After(text[k], Net(text[a..k]))
  {
    assert text[a..k + 1][..k - a] == text[a..k];
  }

  ghost predicate OpenUntil(text: string, a: nat, k: nat)
    requires a <= k <= |text|
  {
    forall m {:trigger text[a..m]} :: a < m < k ==> Net(text[a..m]) > 0
  }

  /** The end found for a braced item is its matching brace: the first place where the braces opened
      since the item's own are all closed. Without one, everything to the end of the text goes. */
  lemma {:induction false} BlockEndMatches(text: string, a: nat, k: nat, depth: int)
    requires a <= k <= |text| && depth == Net(text[a..k]) && OpenUntil(text, a, k)
    requires k == a || depth > 0
    requires k == a ==> k < |text| && text[k] == '{'
    ensures var r := BlockEnd(text, k, depth);
            && a < r && OpenUntil(text, a, r)
            && (if Net(text[a..r]) == 0 then text[r - 1] == '}' else r == |text| && Net(text[a..r]) > 0)
    decreases |text| - k
  {
    if k < |text| {
      NetNext(text, a, k);
      if !(text[k] == '}' && depth == 1) {
        BlockEndMatches(text, a, k + 1, After(text[k], depth));
      }
    }
  }

  /** The braces of a deleted interval that does not reach the end of the text all lie before its stop. */
  lemma CutNet(text: string, c: Cut)
    requires c.start < c.stop <= c.end < |text| && c.end == RegionEnd(text, c.stop)
    ensures c.stop < c.end || c.stop == |text|
    ensures IsStop(text[c.stop]) ==> Net(text[c.start..c.end]) == Net(text[c.start..c.stop])
  {
    NetSplit(text, c.start, c.stop, c.end);
    assert text[c.stop..c.stop] == "";
    NetNext(text, c.stop, c.stop);
    if text[c.stop] == '{' {
      BlockEndMatches(text, c.stop, c.stop, 0);
    }
  }

  predicate Survives(cuts: seq<Cut>, p: int) {
    forall k :: 0 <= k < |cuts| ==> !(cuts[k].start <= p < cuts[k].end)
  }

  /** What is left of `text[i..p]`. */
  function LeftTo(text: string, cuts: seq<Cut>, i: nat, p: nat): string
    requires i <= p <= |text| && InOrder(cuts, i, |text|)
    decreases |cuts|
  {
    if cuts == [] || p <= cuts[0].start then text[i..p]
    else if p < cuts[0].end then text[i..cuts[0].start]
    else text[i..cuts[0].start] + LeftTo(text, cuts[1..], cuts[0].end, p)
  }

  /** The braces between the start of a gate and its stop, over the intervals deleted before `p`. */
  function RunUp(text: string, cuts: seq<Cut>, i: int, p: nat): int
    requires p <= |text| && InOrder(cuts, i, |text|)
    decreases |cuts|
  {
    if cuts == [] || p < cuts[0].end then 0
    else Net(text[cuts[0].start..cuts[0].stop]) + RunUp(text, cuts[1..], cuts[0].end, p)
  }

  /** Every interval is a region the scan found. */
  predicate Regions(text: string, cuts: seq<Cut>) {
    forall k :: 0 <= k < |cuts| ==>
      && cuts[k].stop <= |text| && cuts[k].end == RegionEnd(text, cuts[k].stop)
      && (cuts[k].stop < |text| ==> IsStop(text[cuts[k].stop]))
  }

  lemma CutsAreRegions(text: string, gates: seq<Gate>, i: nat)
    requires forall k :: 0 <= k < |gates| ==> gates[k].start < gates[k].end <= |text|
    ensures Regions(text, Cuts(text, gates, i))
  {
    var cuts := Cuts(text, gates, i);
    forall n | 0 <= n < |cuts|
      ensures cuts[n].stop <= |text| && cuts[n].end == RegionEnd(text, cuts[n].stop)
      ensures cuts[n].stop < |text| ==> IsStop(text[cuts[n].stop])
    {
      var k := CutsStartAtGates(text, gates, i, cuts[n]);
      StopIsFirst(text, SkipSpace(text, gates[k].end));
    }
  }

  /** A surviving character comes right after what is left of the text before it. */
  lemma {:induction false} SurvivorPlace(text: string, cuts: seq<Cut>, i: nat, p: nat)
    requires i <= p < |text| && InOrder(cuts, i, |text|) && Survives(cuts, p)
    ensures LeftTo(text, cuts, i, p) + [text[p]] <= Left(text, cuts, i)
    decreases |cuts|
  {
    if cuts == [] || p <= cuts[0].start {
      if cuts == [] {
        assert text[i..] == text[i..p] + [text[p]] + text[p + 1..];
      } else {
        assert p < cuts[0].start;
        assert text[i..cuts[0].start] == text[i..p] + [text[p]] + text[p + 1..cuts[0].start];
      }
    } else {
      assert cuts[0].end <= p;
      assert forall k :: 0 <= k < |cuts| - 1 ==> cuts[1..][k] == cuts[k + 1];
      SurvivorPlace(text, cuts[1..], cuts[0].end, p);
      PrefixShift(text[i..cuts[0].start], LeftTo(text, cuts[1..], cuts[0].end, p) + [text[p]],
                  Left(text, cuts[1..], cuts[0].end));
    }
  }

  lemma PrefixShift(a: string, b: string, c: string)
    requires b <= c
    ensures a + b <= a + c
  {
  }

  /** The depth at a surviving character changes by exactly the braces between the gates before it and
      their stops. */
  lemma {:induction false} SurvivorDepth(text: string, cuts: seq<Cut>, i: nat, p: nat)
    requires i <= p < |text| && InOrder(cuts, i, |text|) && Survives(cuts, p) && Regions(text, cuts)
    ensures Net(LeftTo(text, cuts, i, p)) == Net(text[i..p]) - RunUp(text, cuts, i, p)
    decreases |cuts|
  {
    if cuts != [] && cuts[0].start < p {
      var c := cuts[0];
      assert c.end <= p;
      assert forall k :: 0 <= k < |cuts| - 1 ==> cuts[1..][k] == cuts[k + 1];
      SurvivorDepth(text, cuts[1..], c.end, p);
      CutNet(text, c);
      NetSplit(text, i, c.start, p);
      NetSplit(text, c.start, c.end, p);
      NetConcat(text[i..c.start], LeftTo(text, cuts[1..], c.end, p));
    } else if cuts != [] {
      assert p < cuts[0].start;
    }
  }

  /** Over every text and every set of gates: a character outside the deleted regions is kept, and its
      nesting depth is unchanged if and only if the braces between the earlier gates and their stops
      cancel out. */
  lemma StrippedDepth(text: string, gates: seq<Gate>, p: nat)
    requires Ordered(gates, 0, |text|) && p < |text|
    requires forall k :: 0 <= k < |gates| ==> gates[k].start < gates[k].end <= |text|
    requires Survives(Cuts(text, gates, 0), p)
    ensures var cuts := Cuts(text, gates, 0);
            && InOrder(cuts, 0, |text|)
            && var out, at := Left(text, cuts, 0), |LeftTo(text, cuts, 0, p)|;
            && at < |out| && out[at] == text[p]
            && (Net(out[..at]) == Net(text[..p]) <==> RunUp(text, cuts, 0, p) == 0)
  {
    var cuts := Cuts(text, gates, 0);
    CutsAreDisjoint(text, gates, 0, 0);
    CutsAreRegions(text, gates, 0);
    SurvivorPlace(text, cuts, 0, p);
    SurvivorDepth(text, cuts, 0, p);
    assert text[0..p] == text[..p];
    var at := |LeftTo(text, cuts, 0, p)|;
    assert Left(text, cuts, 0)[..at] == LeftTo(text, cuts, 0, p);
  }

  /** Gates and run-ups without braces cancel out. */
  lemma {:induction false} PlainRunUp(text: string, cuts: seq<Cut>, i: int, p: nat)
    requires p <= |text| && InOrder(cuts, i, |text|)
    requires forall k :: 0 <= k < |cuts| ==> cuts[k].start <= cuts[k].stop <= |text|
    requires forall k, m :: 0 <= k < |cuts| && cuts[k].start <= m < cuts[k].stop ==> text[m] != '{' && text[m] != '}'
    ensures RunUp(text, cuts, i, p) == 0
    decreases |cuts|
  {
    if cuts != [] && cuts[0].end <= p {
      assert forall k :: 0 <= k < |cuts| - 1 ==> cuts[1..][k] == cuts[k + 1];
      NoBraces(text[cuts[0].start..cuts[0].stop]);
      PlainRunUp(text, cuts[1..], cuts[0].end, p);
    }
  }

  lemma {:induction false} NoBraces(s: string)
    requires '{' !in s && '}' !in s
    ensures Net(s) == 0
  {
    if s != "" { NoBraces(s[..|s| - 1]); }
  }

  /** A gated expression that ends a block takes the closing brace with it. */
  lemma CloserSwallowed()
    ensures var text := "{G}\ny";
            var cuts := Cuts(text, [Gate(1, 2)], 0);
            cuts == [Cut(1, 3, 4)] && InOrder(cuts, 0, 5) && RunUp(text, cuts, 0, 4) == -1
  {
    var text := "{G}\ny";
    assert SkipSpace(text, 2) == 2;
    assert Stop(text, 3) == 3;
    assert Stop(text, 2) == 3;
    assert CutOf(text, Gate(1, 2)) == Cut(1, 3, 4);
    assert [Gate(1, 2)][1..] == [];
    assert [Cut(1, 3, 4)][1..] == [];
    assert text[1..3] == "G" + "}";
    NetConcat("G", "}");
    assert "G"[..0] == "" && "}"[..0] == "";
  }
}
