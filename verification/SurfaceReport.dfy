/** How many added lines run on every board: `report_against_main` in
    scripts/shared_surface_check.py, for one file. */
module SurfaceReport {
  import opened Text
  import opened GateExtents
  import opened StrippedShow
  import opened UnifiedDiff

  /** A line that is neither blank nor a comment. */
  predicate IsCode(t: string) { Strip(t) != "" && !StartsWith(LStrip(t), "//") }

  /** Line `n` of the new file, counted from one, is an added line of code outside every gate's extent. */
  ghost predicate RunsEverywhere(file: seq<NewLine>, ls: seq<Line>, n: nat) {
    1 <= n <= |file| && file[n - 1].added && IsCode(file[n - 1].text) && !Governed(ls, n)
  }

  predicate Ascending(ns: seq<nat>) { forall i, j :: 0 <= i < j < |ns| ==> ns[i] < ns[j] }

  /** The lines added code stands on that no gate covers: all of them run on every board. */
  ghost function Everywhere(file: seq<NewLine>, ls: seq<Line>): set<nat> {
    set n | 1 <= n <= |file| && RunsEverywhere(file, ls, n)
  }

  /** The numbers of the added lines that are code and not covered. */
  function Loose(added: seq<Numbered>, covered: set<nat>): seq<nat> {
    if added == [] then []
    else
      var (n, t) := added[|added| - 1];
      var init := Loose(added[..|added| - 1], covered);
      if IsCode(t) && n !in covered then init + [n] else init
  }

  method LooseLines(added: seq<Numbered>, covered: set<nat>) returns (loose: seq<nat>)
    ensures loose == Loose(added, covered)
  {
    loose := [];
    for i := 0 to |added|
      invariant loose == Loose(added[..i], covered)
    {
      assert added[..i + 1][..i] == added[..i];
      var (n, t) := added[i];
      if IsCode(t) {
        if n !in covered { loose := loose + [n]; }
      }
    }
    assert added[..|added|] == added;
  }

  lemma {:induction false} LooseMembers(added: seq<Numbered>, covered: set<nat>, n: nat)
    ensures n in Loose(added, covered) <==>
              exists i :: 0 <= i < |added| && added[i].0 == n && IsCode(added[i].1) && n !in covered
  {
    if added != [] {
      var init := added[..|added| - 1];
      LooseMembers(init, covered, n);
      assert forall i :: 0 <= i < |init| ==> init[i] == added[i];
    }
  }

  lemma {:induction false} LooseAscends(added: seq<Numbered>, covered: set<nat>)
    requires forall i, j :: 0 <= i < j < |added| ==> added[i].0 < added[j].0
    ensures Ascending(Loose(added, covered))
  {
    if added != [] {
      var init := added[..|added| - 1];
      LooseAscends(init, covered);
      var l := Loose(init, covered);
      forall k | 0 <= k < |l| ensures l[k] < added[|added| - 1].0 {
        LooseMembers(init, covered, l[k]);
        var i :| 0 <= i < |init| && init[i].0 == l[k];
        assert added[i].0 < added[|added| - 1].0;
      }
    }
  }

  // --- stripping the diff changes nothing that counts ---

  /** The counter after reading. */
  function Counter(ts: seq<Token>, at: nat): nat {
    if ts == [] then at
    else match ts[0]
      case At(n) => Counter(ts[1..], n)
      case Plus(t) => Counter(ts[1..], at + 1)
      case Context => Counter(ts[1..], at + 1)
      case _ => Counter(ts[1..], at)
  }

  lemma {:induction false} ReadLast(ts: seq<Token>, t: Token, at: nat)
    ensures ReadFrom(ts + [t], at) == ReadFrom(ts, at) + if t.Plus? then [(Counter(ts, at), t.text)] else []
  {
    if ts == [] {
      assert [t][1..] == [];
    } else {
      assert (ts + [t])[1..] == ts[1..] + [t];
      ReadLast(ts[1..], t, if ts[0].At? then ts[0].start else if ts[0].Plus? || ts[0].Context? then at + 1 else at);
    }
  }

  lemma PlusLine(line: string)
    ensures TokenOf(line).Plus? <==> StartsWith(line, "+") && !StartsWith(line, "+++")
    ensures TokenOf(line).Plus? ==> TokenOf(line).text == line[1..]
  {
    if StartsWith(line, "+") { assert line[0] == '+' && "@@ -"[0] == '@'; }
  }

  lemma CodeStripped(t: string)
    ensures IsCode(RStrip(t)) == IsCode(t)
  {
    RStripBlankness(t);
    RStripBeginning(t, "//");
  }

  /** Two last lines that are added code alike give the same loose lines. */
  lemma LooseLast(ts: seq<Token>, t: Token, u: Token, at: nat, covered: set<nat>)
    requires t.Plus? == u.Plus? && (t.Plus? ==> IsCode(t.text) == IsCode(u.text))
    ensures Loose(ReadFrom(ts + [t], at), covered) == Loose(ReadFrom(ts + [u], at), covered)
  {
    ReadLast(ts, t, at);
    ReadLast(ts, u, at);
    var x := ReadFrom(ts, at);
    if t.Plus? {
      assert (x + [(Counter(ts, at), t.text)])[..|x|] == x;
      assert (x + [(Counter(ts, at), u.text)])[..|x|] == x;
    }
  }

  lemma PlusPrefix(r: string, post: string)
    requires Blank(post)
    ensures TokenOf(r + post).Plus? == TokenOf(r).Plus?
  {
    PlusLine(r);
    PlusLine(r + post);
    StartsInside(r, post, "+");
    StartsInside(r, post, "+++");
  }

  /** The last line of a diff, stripped on the right, is added code if and only if it was. */
  lemma PlusKept(last: string)
    ensures var t, u := TokenOf(last), TokenOf(RStrip(last));
            t.Plus? == u.Plus? && (t.Plus? ==> IsCode(t.text) == IsCode(u.text))
  {
    PlusSame(last);
    if TokenOf(last).Plus? { PlusText(last); }
  }

  lemma PlusSame(last: string)
    ensures TokenOf(RStrip(last)).Plus? == TokenOf(last).Plus?
  {
    var r := RStrip(last);
    RStripSplit(last);
    assert last == r + last[|r|..];
    PlusPrefix(r, last[|r|..]);
  }

  lemma PlusText(last: string)
    requires TokenOf(last).Plus? && TokenOf(RStrip(last)).Plus?
    ensures IsCode(TokenOf(last).text) == IsCode(TokenOf(RStrip(last)).text)
  {
    PlusLine(RStrip(last));
    PlusLine(last);
    assert last[0] == '+';
    PlusStripped(last);
  }

  lemma BlankIsNoPlus(line: string)
    requires Blank(line)
    ensures !TokenOf(line).Plus?
  {
    PlusLine(line);
    assert line != "" ==> IsSpace(line[0]);
  }

  lemma PlusStripped(last: string)
    requires last != "" && !IsSpace(last[0])
    ensures RStrip(last) != "" && IsCode(RStrip(last)[1..]) == IsCode(last[1..])
  {
    var t := last[1..];
    assert last == [last[0]] + t;
    if Blank(t) {
      RStripSpaces([last[0]], t);
      assert RStrip([last[0]]) == [last[0]];
      BlankStrips(t);
      assert [last[0]][1..] == "";
    } else {
      RStripKeeps([last[0]], t);
      assert ([last[0]] + RStrip(t))[1..] == RStrip(t);
      CodeStripped(t);
    }
  }

  lemma TokensSnoc(lines: seq<string>, last: string)
    ensures Tokens(lines + [last]) == Tokens(lines) + [TokenOf(last)]
  {
  }

  /** The loose lines of a diff. */
  function LooseOf(diff: seq<string>, covered: set<nat>): seq<nat> { Loose(ReadFrom(Tokens(diff), 0), covered) }

  lemma BlankLastReads(init: seq<string>, last: string, covered: set<nat>)
    requires Blank(last)
    ensures LooseOf(init + [last], covered) == LooseOf(init, covered)
  {
    TokensSnoc(init, last);
    BlankIsNoPlus(last);
    ReadLast(Tokens(init), TokenOf(last), 0);
    assert ReadFrom(Tokens(init), 0) + [] == ReadFrom(Tokens(init), 0);
  }

  lemma StrippedLastReads(init: seq<string>, last: string, covered: set<nat>)
    ensures LooseOf(init + [RStrip(last)], covered) == LooseOf(init + [last], covered)
  {
    TokensSnoc(init, last);
    TokensSnoc(init, RStrip(last));
    PlusKept(last);
    LooseLast(Tokens(init), TokenOf(last), TokenOf(RStrip(last)), 0, covered);
  }

  lemma {:induction false} TailReads(diff: seq<string>, covered: set<nat>)
    ensures LooseOf(TrimTail(diff), covered) == LooseOf(diff, covered)
  {
    if diff != [] {
      var init, last := diff[..|diff| - 1], diff[|diff| - 1];
      assert diff == init + [last];
      if Blank(last) {
        BlankLastReads(init, last, covered);
        TailReads(init, covered);
        assert TrimTail(diff) == TrimTail(init);
      } else {
        StrippedLastReads(init, last, covered);
        assert TrimTail(diff) == init + [RStrip(last)];
      }
    }
  }

  /** A diff that opens with something other than whitespace gives the same loose lines stripped. */
  lemma StrippedDiffReads(diff: seq<string>, covered: set<nat>)
    requires NoNewlines(diff) && diff != [] && diff[0] != "" && !IsSpace(diff[0][0])
    ensures LooseOf(Shown(diff), covered) == LooseOf(diff, covered)
  {
    ShownTrims(diff);
    assert [diff[0]] + diff[1..] == diff;
    assert TrimHead(diff) == diff;
    TailReads(diff, covered);
  }

  // --- the report ---

  /** The texts of the lines of a file. */
  function Texts(file: seq<NewLine>): (r: seq<string>)
    ensures |r| == |file|
  {
    seq(|file|, i requires 0 <= i < |file| => file[i].text)
  }

  /** The gate scan's view of the new file. */
  function Source(archCfg: string -> bool, file: seq<NewLine>): seq<Line> { Features(archCfg, Texts(file)) }

  /** Line `n` is an added line of code, and the line `shift` further down is outside every gate's extent. */
  ghost predicate RunsBelow(file: seq<NewLine>, ls: seq<Line>, shift: nat, n: nat) {
    1 <= n <= |file| && file[n - 1].added && IsCode(file[n - 1].text) && !Governed(ls, n + shift)
  }

  ghost function Shifted(file: seq<NewLine>, ls: seq<Line>, shift: nat): set<nat> {
    set n | 1 <= n <= |file| && RunsBelow(file, ls, shift, n)
  }

  /** What the loose lines of an exact numbering are. */
  lemma LooseIsShifted(file: seq<NewLine>, ls: seq<Line>, shift: nat, covered: set<nat>)
    requires Shifts(ls, covered, shift)
    ensures var loose := Loose(Added(file, 1), covered);
            && Ascending(loose) && (forall n :: n in loose <==> n in Shifted(file, ls, shift))
            && |loose| == |Shifted(file, ls, shift)|
  {
    var added := Added(file, 1);
    var loose := Loose(added, covered);
    AddedIsExact(file, 1);
    LooseAscends(added, covered);
    forall n: nat ensures n in loose <==> n in Shifted(file, ls, shift) {
      LooseMembers(added, covered, n);
      if n in Shifted(file, ls, shift) {
        assert (n, file[n - 1].text) in added;
      }
      if i :| 0 <= i < |added| && added[i].0 == n && IsCode(added[i].1) && n !in covered {
        assert (n, added[i].1) in added;
      }
    }
    AscendingCount(loose, Shifted(file, ls, shift));
  }

  /** The report is right: its lines are the added code lines outside every gate extent. */
  ghost predicate Right(loose: seq<nat>, file: seq<NewLine>, ls: seq<Line>) {
    forall n :: n in loose <==> n in Everywhere(file, ls)
  }

  /** The last line any gate governs. */
  ghost predicate LastGoverned(ls: seq<Line>, last: nat) {
    Governed(ls, last) && forall m :: m > last ==> !Governed(ls, m)
  }

  predicate AddedCode(file: seq<NewLine>, n: nat) {
    1 <= n <= |file| && file[n - 1].added && IsCode(file[n - 1].text)
  }

  /** The report on a printed diff and on the file `git show` prints, both stripped: its OUTSIDE lines are, in order
      and without repeats, the added code lines for which the line as far down as the new file has leading
      blank lines is outside every gate extent. So it is right when the file does not start with a blank line, and
      when no gate governs anything; and where the last governed line is added code, only then. */
  method Report(archCfg: string -> bool, pre: seq<string>, ps: seq<Part>) returns (loose: seq<nat>)
    requires Preamble(pre) && pre != [] && pre[0] != "" && !IsSpace(pre[0][0]) && Plain(ps) && Unmoved(archCfg)
    requires NoNewlines(pre + PrintDiff(ps))
    requires NoNewlines(Texts(NewFile(ps))) && Scannable(Source(archCfg, NewFile(ps)))
    ensures Ascending(loose)
    ensures var file := NewFile(ps);
            && (forall n :: n in loose <==> n in Shifted(file, Source(archCfg, file), Lead(Texts(file))))
            && |loose| == |Shifted(file, Source(archCfg, file), Lead(Texts(file)))|
    ensures var file := NewFile(ps); Lead(Texts(file)) == 0 ==> Right(loose, file, Source(archCfg, file))
    ensures var file := NewFile(ps);
            (forall n :: !Governed(Source(archCfg, file), n)) ==> Right(loose, file, Source(archCfg, file))
    ensures var file := NewFile(ps);
            forall last :: LastGoverned(Source(archCfg, file), last) && AddedCode(file, last) ==>
              (Right(loose, file, Source(archCfg, file)) <==> Lead(Texts(file)) == 0)
  {
    var diff := pre + PrintDiff(ps);
    var added := AddedLineNumbers(Shown(diff));
    ReadBackIsExact(pre, ps);
    var texts := Texts(NewFile(ps));
    var covered := ArchGatedLines(Features(archCfg, Shown(texts)));
    ShownIsShifted(archCfg, texts, covered);
    loose := LooseLines(added, covered);
    assert diff[0] == pre[0];
    StrippedDiffReads(diff, covered);
    LooseIsShifted(NewFile(ps), Features(archCfg, texts), Lead(texts), covered);
    RightExactly(loose, NewFile(ps), Features(archCfg, texts), Lead(texts));
  }

  /** Moved down past the last governed line, the line there is reported though a gate governs it. */
  lemma ShiftMisses(loose: seq<nat>, file: seq<NewLine>, ls: seq<Line>, shift: nat, last: nat)
    requires forall n :: n in loose <==> n in Shifted(file, ls, shift)
    requires shift > 0 && LastGoverned(ls, last) && AddedCode(file, last)
    ensures !Right(loose, file, ls)
  {
    assert RunsBelow(file, ls, shift, last) && !RunsEverywhere(file, ls, last);
    assert last in loose && last !in Everywhere(file, ls);
  }

  lemma RightExactly(loose: seq<nat>, file: seq<NewLine>, ls: seq<Line>, shift: nat)
    requires forall n :: n in loose <==> n in Shifted(file, ls, shift)
    ensures shift == 0 || (forall n :: !Governed(ls, n)) ==> Right(loose, file, ls)
    ensures forall last :: LastGoverned(ls, last) && AddedCode(file, last) ==> (Right(loose, file, ls) <==> shift == 0)
  {
    if shift == 0 || forall n :: !Governed(ls, n) {
      forall n: nat ensures RunsBelow(file, ls, shift, n) <==> RunsEverywhere(file, ls, n) {}
    }
    if shift > 0 {
      forall last | LastGoverned(ls, last) && AddedCode(file, last)
        ensures !Right(loose, file, ls)
      {
        ShiftMisses(loose, file, ls, shift, last);
      }
    }
  }

  // --- a wholly new file ---

  /** The last governed line ends an item, so there is something on it. */
  lemma LastLineShows(archCfg: string -> bool, texts: seq<string>, last: nat)
    requires Scannable(Features(archCfg, texts)) && LastGoverned(Features(archCfg, texts), last)
    ensures 1 <= last <= |texts| && !Blank(texts[last - 1])
  {
    var ls := Features(archCfg, texts);
    var g :| 0 <= g < last && g < |ls| && ls[g].gate && last <= Reach(ls, g);
    LastIsItemEnd(ls, g, last);
    MappedAt(Reader(archCfg), texts, last - 1);
    if Blank(texts[last - 1]) { BlankIsEmpty(archCfg, texts[last - 1]); }
  }

  lemma LastIsItemEnd(ls: seq<Line>, g: nat, last: nat)
    requires Scannable(ls) && LastGoverned(ls, last)
    requires g < last && g < |ls| && ls[g].gate && last <= Reach(ls, g)
    ensures last <= |ls| && !Empty(ls[last - 1])
  {
    var j := ItemFrom(ls, g + 1);
    assert EndsInside(ls, j);
    var k := EndFrom(ls, j, j);
    ReachOf(ls, g, j, k);
    assert Governed(ls, Reach(ls, g));
    assert last == k + 1;
    ItemIsFirst(ls, g + 1);
    EndIsFirst(ls, j, j);
    if Empty(ls[k]) { EndedBefore(ls, j, k); }
  }

  /** A file that is new to the branch, with a gate in it and no comment where the last governed item ends: the
      report on it is right if and only if its first line is not blank. */
  lemma NewFileReport(archCfg: string -> bool, loose: seq<nat>, file: seq<NewLine>, last: nat)
    requires Scannable(Source(archCfg, file)) && LastGoverned(Source(archCfg, file), last)
    requires (forall i :: 0 <= i < |file| ==> file[i].added)
             && (last <= |file| ==> !StartsWith(LStrip(file[last - 1].text), "//"))
    requires forall n :: n in loose <==> n in Shifted(file, Source(archCfg, file), Lead(Texts(file)))
    ensures Right(loose, file, Source(archCfg, file)) <==> !Blank(file[0].text)
  {
    LastLineShows(archCfg, Texts(file), last);
    BlankStrips(file[last - 1].text);
    RightExactly(loose, file, Source(archCfg, file), Lead(Texts(file)));
    assert Texts(file)[0] == file[0].text;
  }

  /** The features of a blank line, a gate, the statement it governs and a statement it does not. */
  lemma FourLines(ls: seq<Line>)
    requires ls == [Line(false, true, 0, 0, false), Line(true, true, 0, 0, false),
                    Line(false, false, 0, 0, true), Line(false, false, 0, 0, true)]
    ensures WellGated(ls) && forall n :: Governed(ls, n) <==> 2 <= n <= 3
  {
    assert !HasBrace(ls, 2, 3);
    assert EndFrom(ls, 2, 2) == 2;
    assert ItemFrom(ls, 2) == 2;
    assert ls[1].gate && Reach(ls, 1) == 3;
  }

  function Four(a: string, b: string, c: string, d: string): seq<NewLine> {
    [NewLine(a, true), NewLine(b, true), NewLine(c, true), NewLine(d, true)]
  }

  lemma FourTexts(archCfg: string -> bool, a: string, b: string, c: string, d: string)
    ensures Texts(Four(a, b, c, d)) == [a, b, c, d]
    ensures Source(archCfg, Four(a, b, c, d)) ==
            [Classify(archCfg, a), Classify(archCfg, b), Classify(archCfg, c), Classify(archCfg, d)]
  {
    var t, f := Texts(Four(a, b, c, d)), Reader(archCfg);
    assert t == [a, b, c, d];
    forall i | 0 <= i < 4
      ensures Mapped(f, t)[i] == Classify(archCfg, t[i])
    {
      MappedAt(f, t, i);
    }
  }

  /** A new file of a blank line, a gate, the statement it governs and a statement it does not: one line runs
      on every board, two are reported. */
  lemma LeadingBlankMisreports(archCfg: string -> bool, gate: string, gated: string, next: string)
    requires GateLine(archCfg, gate) && StatementLine(archCfg, gated) && StatementLine(archCfg, next)
    requires IsCode(gate) && IsCode(gated) && IsCode(next)
    requires gate[|gate| - 1] != ';' && gated[|gated| - 1] == ';' && next[|next| - 1] == ';'
    ensures var file := Four("", gate, gated, next);
            && Scannable(Source(archCfg, file)) && Lead(Texts(file)) == 1
            && Shifted(file, Source(archCfg, file), 1) == {3, 4} && Everywhere(file, Source(archCfg, file)) == {4}
  {
    var file := Four("", gate, gated, next);
    FourTexts(archCfg, "", gate, gated, next);
    BlankIsEmpty(archCfg, "");
    ClassifyShapes(archCfg, gate);
    ClassifyShapes(archCfg, gated);
    ClassifyShapes(archCfg, next);
    FourLines(Source(archCfg, file));
    WellGatedIsScannable(Source(archCfg, file));
    assert [gate, gated, next] == Texts(file)[1..];
    FourCounts(file, Source(archCfg, file));
  }

  lemma FourCounts(file: seq<NewLine>, ls: seq<Line>)
    requires |file| == 4 && (forall i :: 0 <= i < 4 ==> file[i].added && (IsCode(file[i].text) <==> i > 0))
    requires forall n :: Governed(ls, n) <==> 2 <= n <= 3
    ensures Shifted(file, ls, 1) == {3, 4} && Everywhere(file, ls) == {4}
  {
    forall n | 1 <= n <= 4
      ensures RunsBelow(file, ls, 1, n) <==> n == 3 || n == 4
      ensures RunsEverywhere(file, ls, n) <==> n == 4
    {
      assert file[n - 1].added;
    }
  }

  lemma {:induction false} AscendingCount(ns: seq<nat>, s: set<nat>)
    requires Ascending(ns) && forall n :: n in ns <==> n in s
    ensures |s| == |ns|
  {
    if ns == [] {
      assert s == {};
    } else {
      var last, init := ns[|ns| - 1], ns[..|ns| - 1];
      assert ns == init + [last];
      forall n ensures n in init <==> n in s - {last} {
        if n in init { var i :| 0 <= i < |init| && init[i] == n; assert ns[i] < last; }
      }
      AscendingCount(init, s - {last});
    }
  }
}
