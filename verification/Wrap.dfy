/** The greedy filling of diagnostic notes, `wrap` in scripts/conform.py. */
module Wrap {
  import opened Text

  // --- words ---

  /** The length of the leading run of non-space characters. */
  function RunLength(s: string): (k: nat)
    ensures k <= |s|
  {
    if s == "" || IsSpace(s[0]) then 0 else 1 + RunLength(s[1..])
  }

  lemma {:induction false} RunIsMaximal(s: string)
    ensures forall i :: 0 <= i < RunLength(s) ==> !IsSpace(s[i])
    ensures RunLength(s) < |s| ==> IsSpace(s[RunLength(s)])
  {
    if s != "" && !IsSpace(s[0]) {
      RunIsMaximal(s[1..]);
      assert forall i :: 1 <= i < RunLength(s) ==> s[i] == s[1..][i - 1];
    }
  }

  predicate IsWord(w: string) {
    w != "" && forall i :: 0 <= i < |w| ==> !IsSpace(w[i])
  }

  predicate AllWords(ws: seq<string>) {
    forall i :: 0 <= i < |ws| ==> IsWord(ws[i])
  }

  /** `text.split()` */
  function Words(s: string): seq<string>
    decreases |s|
  {
    if s == "" then []
    else if IsSpace(s[0]) then Words(s[1..])
    else var k := RunLength(s); [s[..k]] + Words(s[k..])
  }

  lemma {:induction false} WordsAreWords(s: string)
    ensures AllWords(Words(s))
    decreases |s|
  {
    if s != "" {
      if IsSpace(s[0]) {
        WordsAreWords(s[1..]);
      } else {
        RunIsMaximal(s);
        WordsAreWords(s[RunLength(s)..]);
      }
    }
  }

  lemma {:induction false} RunLengthStops(a: string, c: char, b: string)
    requires IsSpace(c)
    ensures RunLength(a + [c] + b) == RunLength(a)
  {
    if a != "" && !IsSpace(a[0]) {
      assert (a + [c] + b)[1..] == a[1..] + [c] + b;
      RunLengthStops(a[1..], c, b);
    }
  }

  /** Whitespace separates: splitting around it splits both sides. */
  lemma {:induction false} WordsAround(a: string, c: char, b: string)
    requires IsSpace(c)
    ensures Words(a + [c] + b) == Words(a) + Words(b)
    decreases |a|
  {
    var s := a + [c] + b;
    if a == "" {
      assert s[1..] == b;
    } else if IsSpace(a[0]) {
      assert s[1..] == a[1..] + [c] + b;
      WordsAround(a[1..], c, b);
    } else {
      RunLengthStops(a, c, b);
      var k := RunLength(a);
      assert s[..k] == a[..k] && s[k..] == a[k..] + [c] + b;
      WordsAround(a[k..], c, b);
    }
  }

  lemma {:induction false} WordsOfWord(w: string)
    requires IsWord(w)
    ensures Words(w) == [w]
  {
    RunIsMaximal(w);
    assert w[..|w|] == w && w[|w|..] == "";
  }

  // --- lines of words ---

  /** Words set with one space between them. */
  function Joined(ws: seq<string>): string {
    if ws == [] then ""
    else if |ws| == 1 then ws[0]
    else Joined(ws[..|ws| - 1]) + " " + ws[|ws| - 1]
  }

  /** The width a line of words takes, one separating space counted after each. */
  function Weight(ws: seq<string>): nat {
    if ws == [] then 0 else Weight(ws[..|ws| - 1]) + |ws[|ws| - 1]| + 1
  }

  function Flatten(lines: seq<seq<string>>): seq<string> {
    if lines == [] then [] else lines[0] + Flatten(lines[1..])
  }

  function Head(tag: string): string { "    = " + tag + ": " }

  function Mark(tag: string): string { "= " + tag + ":" }

  function Pad(tag: string): string { Spaces(|tag| + 8) }

  /** The text of a line under construction: its prefix, then each word followed by a space. */
  function Pending(prefix: string, ws: seq<string>): string {
    if ws == [] then prefix else Pending(prefix, ws[..|ws| - 1]) + ws[|ws| - 1] + " "
  }

  function Prefix(tag: string, first: bool): (r: string)
    ensures |r| == |tag| + 8
  {
    if first then Head(tag) else Pad(tag)
  }

  /** The loop of `wrap`, on words. A line that still spells the bare label is never broken:
      on the first line that means no word has been placed yet. */
  function Fill(tag: string, cap: int, first: bool, cur: seq<string>, rest: seq<string>): (r: seq<seq<string>>)
    ensures |r| >= 1
    decreases |rest|
  {
    if rest == [] then [cur]
    else if Weight(cur) + |rest[0]| + 1 > cap && Strip(Pending(Prefix(tag, first), cur)) != Mark(tag) then
      [cur] + Fill(tag, cap, false, [rest[0]], rest[1..])
    else
      Fill(tag, cap, first, cur + [rest[0]], rest[1..])
  }

  function Cap(tag: string, width: int): int { width - |tag| - 8 }

  function WrappedWords(tag: string, text: string, width: int): (r: seq<seq<string>>)
    ensures |r| >= 1
  {
    Fill(tag, Cap(tag, width), true, [], Words(text))
  }

  /** The printed lines, stripped on the right. */
  function Printed(tag: string, first: bool, lines: seq<seq<string>>): (r: seq<string>)
    ensures |r| == |lines|
  {
    if lines == [] then []
    else [RStrip(Pending(Prefix(tag, first), lines[0]))] + Printed(tag, false, lines[1..])
  }

  lemma {:induction false} PrintedAppend(tag: string, first: bool, lines: seq<seq<string>>, last: seq<string>)
    ensures Printed(tag, first, lines + [last]) ==
            Printed(tag, first, lines) + [RStrip(Pending(Prefix(tag, first && lines == []), last))]
  {
    if lines != [] {
      assert (lines + [last])[1..] == lines[1..] + [last];
      PrintedAppend(tag, false, lines[1..], last);
    }
  }

  lemma {:induction false} PendingLength(prefix: string, ws: seq<string>)
    ensures |Pending(prefix, ws)| == |prefix| + Weight(ws)
  {
    if ws != [] { PendingLength(prefix, ws[..|ws| - 1]); }
  }

  /** One turn of the loop, seen from the finished lines. */
  lemma FillStep(tag: string, cap: int, full: seq<seq<string>>, line: seq<string>, w: string, tail: seq<string>)
    ensures var all := full + Fill(tag, cap, full == [], line, [w] + tail);
            if Weight(line) + |w| + 1 > cap && Strip(Pending(Prefix(tag, full == []), line)) != Mark(tag) then
              all == full + [line] + Fill(tag, cap, false, [w], tail)
            else
              all == full + Fill(tag, cap, full == [], line + [w], tail)
  {
    assert ([w] + tail)[1..] == tail;
  }

  lemma PendingSnoc(prefix: string, line: seq<string>, w: string)
    ensures Pending(prefix, line + [w]) == Pending(prefix, line) + w + " "
  {
    assert (line + [w])[..|line|] == line;
  }

  /** `wrap(label, text, width)`, with its own accumulators. */
  method WrapNote(tag: string, text: string, width: int) returns (out: string)
    ensures out == Unlines(Printed(tag, true, WrappedWords(tag, text, width)))
  {
    var words := Words(text);
    var lines: seq<string> := [];
    var cur := Head(tag);
    ghost var full: seq<seq<string>> := [];
    ghost var line: seq<string> := [];
    ghost var cap := Cap(tag, width);
    ghost var goal := WrappedWords(tag, text, width);
    assert words[0..] == words;
    for n := 0 to |words|
      invariant cur == Pending(Prefix(tag, full == []), line)
      invariant lines == Printed(tag, true, full)
      invariant full + Fill(tag, cap, full == [], line, words[n..]) == goal
    {
      var w := words[n];
      ghost var prefix := Prefix(tag, full == []);
      PendingLength(prefix, line);
      assert words[n..] == [w] + words[n + 1..];
      FillStep(tag, cap, full, line, w, words[n + 1..]);
      if |cur| + |w| + 1 > width && Strip(cur) != Mark(tag) {
        PrintedAppend(tag, true, full, line);
        lines := lines + [RStrip(cur)];
        cur := Pad(tag) + w + " ";
        PendingSnoc(Pad(tag), [], w);
        full, line := full + [line], [w];
      } else {
        PendingSnoc(prefix, line, w);
        cur := cur + w + " ";
        line := line + [w];
      }
    }
    PrintedAppend(tag, true, full, line);
    lines := lines + [RStrip(cur)];
    out := Unlines(lines);
  }

  // --- what the fill means ---

  /** The fill that breaks whenever the next word does not fit and the line holds a word. */
  function Greedy(cap: int, cur: seq<string>, rest: seq<string>): (r: seq<seq<string>>)
    ensures |r| >= 1
    decreases |rest|
  {
    if rest == [] then [cur]
    else if Weight(cur) + |rest[0]| + 1 > cap && cur != [] then [cur] + Greedy(cap, [rest[0]], rest[1..])
    else Greedy(cap, cur + [rest[0]], rest[1..])
  }

  /** Some line of at least two words is wider than the capacity. */
  predicate Overflows(lines: seq<seq<string>>, cap: int) {
    exists i :: 0 <= i < |lines| && |lines[i]| >= 2 && Weight(lines[i]) > cap
  }

  /** A continuation line that is not the last one spells the label mark. */
  predicate SpellsMark(tag: string, first: bool, lines: seq<seq<string>>) {
    exists i :: (if first then 1 else 0) <= i < |lines| - 1 && Joined(lines[i]) == Mark(tag)
  }

  lemma {:induction false} PendingIsJoined(prefix: string, ws: seq<string>)
    requires ws != [] && AllWords(ws)
    ensures Pending(prefix, ws) == prefix + Joined(ws) + " "
    ensures Joined(ws) != "" && !IsSpace(Joined(ws)[0]) && !IsSpace(Joined(ws)[|Joined(ws)| - 1])
  {
    if |ws| > 1 {
      var init := ws[..|ws| - 1];
      assert AllWords(init);
      PendingIsJoined(prefix, init);
      assert prefix + Joined(init) + " " + ws[|ws| - 1] == prefix + (Joined(init) + " " + ws[|ws| - 1]);
    } else {
      assert ws[..0] == [];
    }
  }

  /** Text that starts and ends with a visible character is untouched by stripping. */
  lemma StripVisible(a: string, s: string, b: string)
    requires Blank(a) && Blank(b) && s != "" && !IsSpace(s[0]) && !IsSpace(s[|s| - 1])
    ensures Strip(a + s + b) == s
    ensures RStrip(a + s + b) == a + s
  {
    LStripSpaces(a, s + b);
    assert a + (s + b) == a + s + b;
    assert LStrip(s + b) == s + b;
    RStripSpaces(s, b);
    RStripSpaces(a + s, b);
  }

  /** The label test of the loop, by what the line holds. */
  lemma LabelTest(tag: string, first: bool, ws: seq<string>)
    requires AllWords(ws) && (first || ws != [])
    ensures Strip(Pending(Prefix(tag, first), ws)) == Mark(tag)
            <==> if first then ws == [] else Joined(ws) == Mark(tag)
  {
    var m := Mark(tag);
    if ws == [] {
      assert Head(tag) == Spaces(4) + m + " ";
      StripVisible(Spaces(4), m, " ");
    } else {
      PendingIsJoined(Prefix(tag, first), ws);
      if first {
        var all := m + " " + Joined(ws);
        assert Pending(Head(tag), ws) == Spaces(4) + all + " ";
        StripVisible(Spaces(4), all, " ");
        assert |all| > |m|;
      } else {
        StripVisible(Pad(tag), Joined(ws), " ");
      }
    }
  }

  /** The first line of a fill begins with what was already on it. */
  lemma {:induction false} FillStartsWith(tag: string, cap: int, first: bool, cur: seq<string>, rest: seq<string>)
    ensures cur <= Fill(tag, cap, first, cur, rest)[0]
    decreases |rest|
  {
    if rest != [] { FillStartsWith(tag, cap, first, cur + [rest[0]], rest[1..]); }
  }

  lemma {:induction false} WeightPrefix(a: seq<string>, b: seq<string>)
    requires a <= b
    ensures Weight(a) <= Weight(b)
    decreases |b|
  {
    if |a| < |b| { WeightPrefix(a, b[..|b| - 1]); } else { assert a == b; }
  }

  /** `wrap` is the greedy fill, and never overfills a line of several words, exactly when no
      continuation line of the greedy fill spells the label mark with more lines to come. */
  lemma {:induction false} FillIsGreedyUnlessMarked(tag: string, cap: int, first: bool, cur: seq<string>,
      rest: seq<string>)
    requires AllWords(cur) && AllWords(rest) && (first || cur != [])
    ensures SpellsMark(tag, first, Greedy(cap, cur, rest)) ==> Overflows(Fill(tag, cap, first, cur, rest), cap)
    ensures !SpellsMark(tag, first, Greedy(cap, cur, rest)) ==>
              Fill(tag, cap, first, cur, rest) == Greedy(cap, cur, rest)
    decreases |rest|
  {
    if rest != [] {
      LabelTest(tag, first, cur);
      var w, tail := rest[0], rest[1..];
      assert AllWords(tail) && AllWords(cur + [w]);
      if Weight(cur) + |w| + 1 > cap && cur != [] {
        var g := Greedy(cap, [w], tail);
        assert Greedy(cap, cur, rest) == [cur] + g;
        if !first && Joined(cur) == Mark(tag) {
          assert ([cur] + g)[0] == cur;
          FillStartsWith(tag, cap, first, cur + [w], tail);
          var line := Fill(tag, cap, first, cur + [w], tail)[0];
          WeightPrefix(cur + [w], line);
          assert (cur + [w])[..|cur|] == cur;
        } else {
          FillIsGreedyUnlessMarked(tag, cap, false, [w], tail);
          MarkTail(tag, first, cur, g);
          var f := Fill(tag, cap, false, [w], tail);
          if Overflows(f, cap) {
            var i :| 0 <= i < |f| && |f[i]| >= 2 && Weight(f[i]) > cap;
            assert ([cur] + f)[i + 1] == f[i];
          }
        }
      } else {
        FillIsGreedyUnlessMarked(tag, cap, first, cur + [w], tail);
      }
    }
  }

  lemma MarkTail(tag: string, first: bool, cur: seq<string>, g: seq<seq<string>>)
    requires |g| >= 1 && (first || Joined(cur) != Mark(tag))
    ensures SpellsMark(tag, first, [cur] + g) <==> SpellsMark(tag, false, g)
  {
    var all := [cur] + g;
    if SpellsMark(tag, false, g) {
      var i :| 0 <= i < |g| - 1 && Joined(g[i]) == Mark(tag);
      assert all[i + 1] == g[i];
    }
    if SpellsMark(tag, first, all) {
      var i :| (if first then 1 else 0) <= i < |all| - 1 && Joined(all[i]) == Mark(tag);
      assert i > 0 && all[i] == g[i - 1];
    }
  }

  /** A split into lines that are filled as far as they go. */
  predicate FilledLines(lines: seq<seq<string>>, cap: int) {
    && (forall i :: 0 <= i < |lines| ==> lines[i] != [] && (Weight(lines[i]) <= cap || |lines[i]| == 1))
    && (forall i :: 0 <= i < |lines| - 1 ==> Weight(lines[i]) + |lines[i + 1][0]| + 1 > cap)
  }

  lemma FilledCons(line: seq<string>, g: seq<seq<string>>, cap: int)
    requires g != [] && FilledLines(g, cap)
    requires line != [] && (Weight(line) <= cap || |line| == 1) && Weight(line) + |g[0][0]| + 1 > cap
    ensures FilledLines([line] + g, cap)
    ensures Flatten([line] + g) == line + Flatten(g)
  {
    var r := [line] + g;
    assert r[1..] == g;
    assert forall i :: 1 <= i < |r| ==> r[i] == g[i - 1];
  }

  lemma {:induction false} GreedyIsFilled(cap: int, cur: seq<string>, rest: seq<string>)
    requires cur != [] || rest != []
    requires cur == [] || Weight(cur) <= cap || |cur| == 1
    ensures FilledLines(Greedy(cap, cur, rest), cap)
    ensures Flatten(Greedy(cap, cur, rest)) == cur + rest
    ensures cur <= Greedy(cap, cur, rest)[0]
    decreases |rest|
  {
    if rest == [] {
      assert Flatten([cur][1..]) == [];
    } else {
      var w, tail := rest[0], rest[1..];
      assert rest == [w] + tail;
      if Weight(cur) + |w| + 1 > cap && cur != [] {
        GreedyIsFilled(cap, [w], tail);
        var g := Greedy(cap, [w], tail);
        assert g[0][0] == w;
        FilledCons(cur, g, cap);
      } else {
        assert (cur + [w])[..|cur|] == cur;
        GreedyIsFilled(cap, cur + [w], tail);
        assert cur + [w] + tail == cur + rest;
      }
    }
  }

  /** Two ways to cut the same words: a cut inside `a`. */
  lemma CutInside(x: seq<string>, y: seq<string>, a: seq<string>, b: seq<string>, from: nat)
    requires from <= |a| && x + y == a[from..] + b && |x| < |a| - from
    ensures x == a[from..from + |x|] && y != [] && y[0] == a[from + |x|]
  {
    var s := x + y;
    assert s[..|x|] == x && s[|x|..] == y;
    assert (a[from..] + b)[..|x|] == a[from..from + |x|];
    assert (a[from..] + b)[|x|] == a[from + |x|];
  }

  /** Two ways to cut the same words: a cut after `a`. */
  lemma CutAfter(x: seq<string>, y: seq<string>, a: seq<string>, b: seq<string>, from: nat)
    requires from <= |a| && x + y == a[from..] + b && |x| >= |a| - from
    ensures |y| <= |b| && y == b[|b| - |y|..]
  {
    var s := x + y;
    assert |y| == |a| - from + |b| - |x|;
    assert s[|x|..] == y;
    assert (a[from..] + b)[|x|..] == b[|x| - (|a| - from)..];
  }

  lemma FlattenFirst(g: seq<seq<string>>)
    requires g != [] && g[0] != []
    ensures Flatten(g) == g[0] + Flatten(g[1..]) && Flatten(g)[0] == g[0][0]
  {
  }

  lemma FilledTail(g: seq<seq<string>>, cap: int)
    requires g != [] && FilledLines(g, cap)
    ensures g[0] != [] && FilledLines(g[1..], cap)
    ensures |g| > 1 ==> g[1] != [] && Weight(g[0]) + |g[1][0]| + 1 > cap
  {
    assert forall i :: 0 <= i < |g| - 1 ==> g[1..][i] == g[i + 1];
  }

  predicate AllFit(lines: seq<seq<string>>, cap: int) { forall i :: 0 <= i < |lines| ==> Weight(lines[i]) <= cap }

  lemma Crowded(x: seq<string>, y: seq<string>, a: seq<string>, from: nat, k: nat)
    requires from <= k < |a| && x == a[from..k] && y != [] && y[0] == a[k]
    ensures Weight(x) + |y[0]| + 1 <= Weight(a)
  {
    WeightInside(a, from, k);
  }

  /** A line too full for the word after it ends no sooner than a fitting line that starts no later. */
  lemma FilledReaches(x: seq<string>, y: seq<string>, a: seq<string>, b: seq<string>, from: nat, cap: int)
    requires from <= |a| && x + y == a[from..] + b && Weight(a) <= cap
    requires y != [] ==> Weight(x) + |y[0]| + 1 > cap
    ensures |x| >= |a| - from
  {
    if |x| < |a| - from {
      CutInside(x, y, a, b, from);
      Crowded(x, y, a, from, from + |x|);
    }
  }

  lemma TooFull(g: seq<seq<string>>, cap: int)
    requires g != [] && FilledLines(g, cap) && Flatten(g[1..]) != []
    ensures Weight(g[0]) + |Flatten(g[1..])[0]| + 1 > cap
  {
    FilledTail(g, cap);
    if g[1..] != [] { FlattenFirst(g[1..]); }
  }

  /** No split into fitting lines is shorter than a filled one, even one that starts further back. */
  lemma {:induction false} FilledIsShortest(g: seq<seq<string>>, o: seq<seq<string>>, cap: int)
    requires FilledLines(g, cap) && AllFit(o, cap)
    requires |Flatten(g)| <= |Flatten(o)| && Flatten(g) == Flatten(o)[|Flatten(o)| - |Flatten(g)|..]
    ensures |g| <= |o|
    decreases |o|
  {
    if g != [] {
      FilledTail(g, cap);
      FlattenFirst(g);
      var a, b, fg := o[0], Flatten(o[1..]), Flatten(g);
      if |fg| <= |b| {
        assert fg == b[|b| - |fg|..];
        FilledIsShortest(g, o[1..], cap);
      } else {
        var from := |a| - (|fg| - |b|);
        assert fg == a[from..] + b;
        if Flatten(g[1..]) != [] { TooFull(g, cap); }
        FilledReaches(g[0], Flatten(g[1..]), a, b, from, cap);
        CutAfter(g[0], Flatten(g[1..]), a, b, from);
        FilledIsShortest(g[1..], o[1..], cap);
      }
    }
  }

  lemma {:induction false} WeightSuffix(a: seq<string>, from: nat)
    requires from <= |a|
    ensures Weight(a[from..]) <= Weight(a)
    decreases |a|
  {
    if from < |a| {
      assert a[from..][..|a| - from - 1] == a[..|a| - 1][from..];
      WeightSuffix(a[..|a| - 1], from);
    }
  }

  lemma WeightInside(a: seq<string>, from: nat, k: nat)
    requires from <= k < |a|
    ensures Weight(a[from..k]) + |a[k]| + 1 <= Weight(a)
  {
    assert a[from..k + 1][..k - from] == a[from..k];
    assert a[..k + 1][from..] == a[from..k + 1];
    WeightSuffix(a[..k + 1], from);
    WeightPrefix(a[..k + 1], a);
  }

  // --- the promises ---

  /** Every continuation starts under the body and every line is its words, one space apart. */
  lemma {:induction false} PrintedLine(tag: string, first: bool, lines: seq<seq<string>>, i: nat)
    requires i < |lines| && AllWords(lines[i]) && lines[i] != []
    ensures Printed(tag, first, lines)[i] == Prefix(tag, first && i == 0) + Joined(lines[i])
  {
    if i == 0 {
      var p := Prefix(tag, first);
      PendingIsJoined(p, lines[0]);
      var j := Joined(lines[0]);
      RStripSpaces(p + j, " ");
    } else {
      PrintedLine(tag, false, lines[1..], i - 1);
    }
  }

  lemma {:induction false} JoinedLength(ws: seq<string>)
    requires ws != []
    ensures |Joined(ws)| == Weight(ws) - 1
  {
    if |ws| > 1 { JoinedLength(ws[..|ws| - 1]); } else { assert ws[..0] == []; }
  }

  /** Every line holds words, at least one. */
  predicate Proper(lines: seq<seq<string>>) {
    forall i :: 0 <= i < |lines| ==> lines[i] != [] && AllWords(lines[i])
  }

  lemma {:induction false} FillKeepsWords(tag: string, cap: int, first: bool, cur: seq<string>, rest: seq<string>)
    requires AllWords(cur) && AllWords(rest) && (first || cur != []) && (cur != [] || rest != [])
    ensures Flatten(Fill(tag, cap, first, cur, rest)) == cur + rest
    ensures Proper(Fill(tag, cap, first, cur, rest))
    decreases |rest|
  {
    var f := Fill(tag, cap, first, cur, rest);
    if rest == [] {
      assert Flatten(f[1..]) == [];
    } else {
      LabelTest(tag, first, cur);
      var w, tail := rest[0], rest[1..];
      assert rest == [w] + tail && AllWords(tail);
      if Weight(cur) + |w| + 1 > cap && Strip(Pending(Prefix(tag, first), cur)) != Mark(tag) {
        FillKeepsWords(tag, cap, false, [w], tail);
        var g := Fill(tag, cap, false, [w], tail);
        assert f == [cur] + g && f[1..] == g;
        assert cur != [];
      } else {
        assert AllWords(cur + [w]);
        FillKeepsWords(tag, cap, first, cur + [w], tail);
        assert cur + [w] + tail == cur + rest;
      }
    }
  }

  lemma GreedyFits(cap: int, ws: seq<string>)
    ensures !Overflows(Greedy(cap, [], ws), cap)
  {
    if ws != [] { GreedyIsFilled(cap, [], ws); } else { assert Greedy(cap, [], ws) == [[]]; }
  }

  /** A printed line takes up its prefix, its words and the spaces between them. */
  lemma PrintedColumns(tag: string, lines: seq<seq<string>>, i: nat)
    requires i < |lines| && AllWords(lines[i]) && lines[i] != []
    ensures |Printed(tag, true, lines)[i]| == |tag| + 8 + Weight(lines[i]) - 1
  {
    PrintedLine(tag, true, lines, i);
    JoinedLength(lines[i]);
  }

  /** Some line of at least two words is printed in `width` columns or more. */
  predicate ReachesWidth(tag: string, lines: seq<seq<string>>, width: int) {
    exists i :: 0 <= i < |lines| && |lines[i]| >= 2 && |Printed(tag, true, lines)[i]| >= width
  }

  /** The lines as printed take up at most `n` columns each. */
  predicate PrintsWithin(tag: string, lines: seq<seq<string>>, n: int) {
    forall i :: 0 <= i < |lines| ==> |Printed(tag, true, lines)[i]| <= n
  }

  lemma ReachingIsOverflowing(tag: string, lines: seq<seq<string>>, width: int)
    requires forall i :: 0 <= i < |lines| ==> AllWords(lines[i])
    ensures ReachesWidth(tag, lines, width) <==> Overflows(lines, Cap(tag, width))
  {
    forall i | 0 <= i < |lines| && |lines[i]| >= 2
      ensures |Printed(tag, true, lines)[i]| >= width <==> Weight(lines[i]) > Cap(tag, width)
    {
      PrintedColumns(tag, lines, i);
    }
  }

  lemma WithinIsFitting(tag: string, lines: seq<seq<string>>, n: int)
    requires Proper(lines)
    ensures PrintsWithin(tag, lines, n) <==> AllFit(lines, Cap(tag, n) + 1)
  {
    forall i | 0 <= i < |lines|
      ensures |Printed(tag, true, lines)[i]| <= n <==> Weight(lines[i]) <= Cap(tag, n) + 1
    {
      PrintedColumns(tag, lines, i);
    }
  }

  lemma WrappedAreWords(tag: string, text: string, width: int)
    ensures forall i :: 0 <= i < |WrappedWords(tag, text, width)| ==> AllWords(WrappedWords(tag, text, width)[i])
  {
    WordsAreWords(text);
    if Words(text) != [] { FillKeepsWords(tag, Cap(tag, width), true, [], Words(text)); }
  }

  /** For every note: a line of several words is printed in `width` columns or more exactly when a
      continuation line of the greedy fill, other than the last, spells the label mark; when none does, the
      note is the greedy fill. So only the mark, or a single word too long for a line, passes the width. */
  lemma WrapIsTight(tag: string, text: string, width: int)
    ensures var g := Greedy(Cap(tag, width), [], Words(text));
            var r := WrappedWords(tag, text, width);
            && (ReachesWidth(tag, r, width) <==> SpellsMark(tag, true, g))
            && (!SpellsMark(tag, true, g) ==> r == g)
  {
    WordsAreWords(text);
    FillIsGreedyUnlessMarked(tag, Cap(tag, width), true, [], Words(text));
    GreedyFits(Cap(tag, width), Words(text));
    WrappedAreWords(tag, text, width);
    ReachingIsOverflowing(tag, WrappedWords(tag, text, width), width);
  }

  /** A note that does not reach the width uses the fewest lines of any split of its words that is printed in
      fewer than `width` columns. */
  lemma WrapIsShortest(tag: string, text: string, width: int, o: seq<seq<string>>)
    requires !ReachesWidth(tag, WrappedWords(tag, text, width), width)
    requires Flatten(o) == Words(text) && Words(text) != [] && Proper(o) && PrintsWithin(tag, o, width - 1)
    ensures |WrappedWords(tag, text, width)| <= |o|
  {
    var cap, ws := Cap(tag, width), Words(text);
    WrapIsTight(tag, text, width);
    GreedyIsFilled(cap, [], ws);
    assert [] + ws == ws;
    WithinIsFitting(tag, o, width - 1);
    FilledIsShortest(Greedy(cap, [], ws), o, cap);
  }

  lemma {:induction false} FlattenWords(lines: seq<seq<string>>)
    requires AllWords(Flatten(lines))
    ensures forall i :: 0 <= i < |lines| ==> AllWords(lines[i])
  {
    if lines != [] {
      var f := Flatten(lines);
      assert f[..|lines[0]|] == lines[0] && f[|lines[0]|..] == Flatten(lines[1..]);
      FlattenWords(lines[1..]);
    }
  }

  lemma {:induction false} WordFitsLine(lines: seq<seq<string>>, cap: int)
    requires forall i :: 0 <= i < |Flatten(lines)| ==> |Flatten(lines)[i]| + 1 <= cap
    ensures forall i :: 0 <= i < |lines| && |lines[i]| == 1 ==> Weight(lines[i]) <= cap
  {
    if lines != [] {
      var f := Flatten(lines);
      assert f[|lines[0]|..] == Flatten(lines[1..]);
      WordFitsLine(lines[1..], cap);
      if |lines[0]| == 1 {
        assert f[0] == lines[0][0] && lines[0][..0] == [];
      }
    }
  }

  /** Greedily filled to one column more, the note is a split printed within the width. */
  lemma WiderFill(tag: string, text: string, width: int)
    requires Words(text) != [] && forall i :: 0 <= i < |Words(text)| ==> |tag| + 8 + |Words(text)[i]| <= width
    ensures var o := Greedy(Cap(tag, width) + 1, [], Words(text));
            Flatten(o) == Words(text) && Proper(o) && PrintsWithin(tag, o, width)
  {
    var cap, ws := Cap(tag, width) + 1, Words(text);
    var o := Greedy(cap, [], ws);
    GreedyIsFilled(cap, [], ws);
    assert [] + ws == ws;
    WordsAreWords(text);
    FlattenWords(o);
    WordFitsLine(o, cap);
    WithinIsFitting(tag, o, width);
  }

  /** Exactly when no split printed within the width, that many columns included, is shorter than the note:
      when the greedy fill to one column more is not. */
  lemma ShortestWithinWidth(tag: string, text: string, width: int)
    requires Words(text) != [] && forall i :: 0 <= i < |Words(text)| ==> |tag| + 8 + |Words(text)[i]| <= width
    ensures (forall o :: Flatten(o) == Words(text) && Proper(o) && PrintsWithin(tag, o, width) ==>
               |WrappedWords(tag, text, width)| <= |o|)
        <==> |WrappedWords(tag, text, width)| <= |Greedy(Cap(tag, width) + 1, [], Words(text))|
  {
    var cap, ws := Cap(tag, width) + 1, Words(text);
    WiderFill(tag, text, width);
    forall o | Flatten(o) == ws && Proper(o) && PrintsWithin(tag, o, width)
      ensures |Greedy(cap, [], ws)| <= |o|
    {
      GreedyIsFilled(cap, [], ws);
      assert [] + ws == ws;
      WithinIsFitting(tag, o, width);
      FilledIsShortest(Greedy(cap, [], ws), o, cap);
    }
  }

  lemma WeightSnoc(ws: seq<string>, w: string)
    ensures Weight(ws + [w]) == Weight(ws) + |w| + 1
  {
    assert (ws + [w])[..|ws|] == ws;
  }

  lemma TwoWords(x: string, y: string)
    requires IsWord(x) && IsWord(y)
    ensures Words(x + [' '] + y) == [x, y]
    ensures Weight([x]) == |x| + 1 && Weight([x, y]) == |x| + |y| + 2
  {
    WordsAround(x, ' ', y);
    WordsOfWord(x);
    WordsOfWord(y);
    WeightSnoc([], x);
    WeightSnoc([x], y);
    assert [] + [x] == [x] && [x] + [y] == [x, y];
  }

  /** The fill of two words that do not fit one line. */
  lemma FillBreaks(tag: string, cap: int, x: string, y: string)
    requires IsWord(x) && IsWord(y) && Weight([x]) + |y| + 1 > cap
    ensures Fill(tag, cap, true, [], [x, y]) == [[x], [y]]
  {
    LabelTest(tag, true, []);
    LabelTest(tag, true, [x]);
    assert [x, y][1..] == [y] && [y][1..] == [] && [] + [x] == [x];
    assert Fill(tag, cap, false, [y], []) == [[y]];
    assert Fill(tag, cap, true, [x], [y]) == [[x]] + [[y]];
  }

  /** It can be: two words that would be printed in exactly `width` columns are put on two lines. */
  lemma ExactWidthBreaks(tag: string, x: string, y: string)
    requires IsWord(x) && IsWord(y)
    ensures var width := |tag| + 8 + |x| + 1 + |y|;
            && |WrappedWords(tag, x + [' '] + y, width)| == 2
            && Flatten([[x, y]]) == Words(x + [' '] + y) && |Printed(tag, true, [[x, y]])[0]| == width
  {
    TwoWords(x, y);
    FillBreaks(tag, |x| + 1 + |y|, x, y);
    PrintedColumns(tag, [[x, y]], 0);
    assert [[x, y]][1..] == [];
  }

  /** How a wrapped note is laid out: each line is its words one space apart, the first after the
      label and every other aligned under the body; and unless the greedy fill meets the label mark,
      only a line of a single word can reach the width. */
  lemma WrapLayout(tag: string, text: string, width: int, i: nat)
    requires Words(text) != [] && i < |WrappedWords(tag, text, width)|
    ensures var r := WrappedWords(tag, text, width);
            && Printed(tag, true, r)[i] == (if i == 0 then Head(tag) else Spaces(|Head(tag)|)) + Joined(r[i])
            && (!SpellsMark(tag, true, Greedy(Cap(tag, width), [], Words(text))) ==>
                  |Printed(tag, true, r)[i]| < width || |r[i]| == 1)
  {
    var cap, ws := Cap(tag, width), Words(text);
    var r := WrappedWords(tag, text, width);
    WordsAreWords(text);
    FillKeepsWords(tag, cap, true, [], ws);
    PrintedLine(tag, true, r, i);
    JoinedLength(r[i]);
    FillIsGreedyUnlessMarked(tag, cap, true, [], ws);
    GreedyIsFilled(cap, [], ws);
  }

  /** The bound on the width is not unconditional: a body that repeats the label at the start of a
      continuation line is carried past it. */
  lemma WrapCanOverflow()
    ensures ReachesWidth("a", Fill("a", Cap("a", 14), true, [], ["wwww", "=", "a:", "z"]), 14)
  {
    MarkedFill();
    FillKeepsWords("a", 5, true, [], ["wwww", "=", "a:", "z"]);
    ReachingIsOverflowing("a", Fill("a", 5, true, [], ["wwww", "=", "a:", "z"]), 14);
  }

  lemma MarkedFill()
    ensures Overflows(Fill("a", 5, true, [], ["wwww", "=", "a:", "z"]), 5)
  {
    var ws := ["wwww", "=", "a:", "z"];
    assert Weight(["wwww"]) == 5;
    assert Weight(["="]) == 2;
    var two := ["=", "a:"];
    assert two[..1] == ["="] && ["="] + ["a:"] == two;
    assert Weight(two) == 5 && Joined(two) == "= a:";
    assert ws[1..] == ["=", "a:", "z"] && ws[1..][1..] == ["a:", "z"] && ws[1..][1..][1..] == ["z"];
    assert Greedy(5, ["z"], ["z"][1..]) == [["z"]];
    assert Greedy(5, two, ["z"]) == [two, ["z"]];
    assert Greedy(5, ["="], ["a:", "z"]) == [two, ["z"]];
    assert Greedy(5, ["wwww"], ["=", "a:", "z"]) == [["wwww"], two, ["z"]];
    assert [] + ["wwww"] == ["wwww"];
    var g := Greedy(5, [], ws);
    assert g == [["wwww"], two, ["z"]];
    assert g[1] == two;
    assert Mark("a") == "= a:";
    FillIsGreedyUnlessMarked("a", 5, true, [], ws);
  }

  lemma WordsAfter(p: string, w: string)
    requires IsWord(w) && (p == "" || IsSpace(p[|p| - 1]))
    ensures Words(p + w) == Words(p) + [w]
  {
    WordsOfWord(w);
    if p == "" {
      assert p + w == w;
    } else {
      var q, c := p[..|p| - 1], p[|p| - 1];
      assert p == q + [c] + "" && p + w == q + [c] + w;
      WordsAround(q, c, "");
      WordsAround(q, c, w);
    }
  }

  lemma {:induction false} WordsOfJoined(p: string, ws: seq<string>)
    requires AllWords(ws) && ws != []
    requires p == "" || IsSpace(p[|p| - 1])
    ensures Words(p + Joined(ws)) == Words(p) + ws
  {
    var init, last := ws[..|ws| - 1], ws[|ws| - 1];
    assert ws == init + [last];
    if |ws| == 1 {
      WordsAfter(p, last);
    } else {
      assert AllWords(init);
      WordsOfJoined(p, init);
      WordsOfWord(last);
      WordsAround(p + Joined(init), ' ', last);
      assert p + Joined(ws) == p + Joined(init) + [' '] + last;
    }
  }

  lemma {:induction false} WordsOfSpaces(n: nat)
    ensures Words(Spaces(n)) == []
  {
    if n > 0 {
      assert Spaces(n)[1..] == Spaces(n - 1);
      WordsOfSpaces(n - 1);
    }
  }

  lemma WordsOfLines(x: string, ys: seq<string>)
    ensures Words(Unlines([x] + ys)) == Words(x) + (if ys == [] then [] else Words(Unlines(ys)))
  {
    if ys != [] {
      assert ([x] + ys)[1..] == ys;
      WordsAround(x, NEWLINE, Unlines(ys));
    }
  }

  lemma WordsOfLine(tag: string, lines: seq<seq<string>>)
    requires lines != [] && Proper(lines)
    ensures Words(Printed(tag, false, lines)[0]) == lines[0]
  {
    PrintedLine(tag, false, lines, 0);
    WordsOfJoined(Pad(tag), lines[0]);
    WordsOfSpaces(|tag| + 8);
  }

  lemma {:induction false} WordsOfPrinted(tag: string, lines: seq<seq<string>>)
    requires lines != [] && Proper(lines)
    ensures Words(Unlines(Printed(tag, false, lines))) == Flatten(lines)
  {
    WordsOfLine(tag, lines);
    var p := Printed(tag, false, lines);
    var rest := Printed(tag, false, lines[1..]);
    assert p == [p[0]] + rest;
    WordsOfLines(p[0], rest);
    if |lines| > 1 {
      WordsOfPrinted(tag, lines[1..]);
    }
  }

  lemma WordsOfHead(tag: string)
    ensures Words(Head(tag)) == Words(Mark(tag))
  {
    WordsAround(Spaces(3), ' ', Mark(tag));
    WordsOfSpaces(3);
    WordsAround(Spaces(3) + [' '] + Mark(tag), ' ', "");
    assert Head(tag) == Spaces(3) + [' '] + Mark(tag) + [' '] + "";
  }

  lemma WordsOfBareMark(tag: string)
    ensures Words(RStrip(Head(tag))) == Words(Mark(tag))
  {
    assert Head(tag) == Spaces(4) + Mark(tag) + " ";
    StripVisible(Spaces(4), Mark(tag), " ");
    assert Spaces(4) + Mark(tag) == Spaces(3) + [' '] + Mark(tag);
    WordsAround(Spaces(3), ' ', Mark(tag));
    WordsOfSpaces(3);
  }

  lemma WordsOfFirst(tag: string, f: seq<seq<string>>)
    requires f != [] && Proper(f)
    ensures Words(Printed(tag, true, f)[0]) == Words(Head(tag)) + f[0]
  {
    PrintedLine(tag, true, f, 0);
    WordsOfJoined(Head(tag), f[0]);
  }

  lemma WordsOfRest(tag: string, lines: seq<seq<string>>)
    requires Proper(lines)
    ensures Words(Unlines(Printed(tag, false, lines))) == Flatten(lines)
  {
    if lines != [] { WordsOfPrinted(tag, lines); }
  }

  lemma WordsOfNote(tag: string, f: seq<seq<string>>)
    requires f != [] && Proper(f)
    ensures Words(Unlines(Printed(tag, true, f))) == Words(Head(tag)) + Flatten(f)
  {
    var first, rest := Printed(tag, true, f)[0], Printed(tag, false, f[1..]);
    WordsOfFirst(tag, f);
    WordsOfRest(tag, f[1..]);
    calc {
      Words(Unlines(Printed(tag, true, f)));
      { assert Printed(tag, true, f) == [first] + rest; }
      Words(Unlines([first] + rest));
      { WordsOfLines(first, rest); }
      Words(first) + Words(Unlines(rest));
      (Words(Head(tag)) + f[0]) + Flatten(f[1..]);
      Words(Head(tag)) + (f[0] + Flatten(f[1..]));
    }
  }

  /** Splitting the printed note into words gives the label mark and then every word, in order. */
  lemma WrapKeepsEveryWord(tag: string, text: string, width: int)
    ensures Words(Unlines(Printed(tag, true, WrappedWords(tag, text, width))))
         == Words(Mark(tag)) + Words(text)
  {
    var ws, f := Words(text), WrappedWords(tag, text, width);
    WordsAreWords(text);
    if ws == [] {
      assert Printed(tag, true, f) == [RStrip(Head(tag))];
      WordsOfBareMark(tag);
    } else {
      FillKeepsWords(tag, Cap(tag, width), true, [], ws);
      assert [] + ws == ws;
      WordsOfHead(tag);
      WordsOfNote(tag, f);
    }
  }
}
