/** Waits that read no key, and the markers that excuse them: scripts/quit_wait_check.py. */
module QuitWaits {
  import opened Text
  import opened Decimal
  import opened BaselineFile
  import Wrap

  const WINDOW := 4

  /** The two patterns: a wait in a line without its comment, and the reason of a marker line. */
  datatype Patterns = Patterns(silent: string -> bool, reason: string -> Option<string>)

  /** A wait needs visible code; a marker is a comment that starts its line. */
  ghost predicate Lawful(p: Patterns) {
    && (forall s :: Blank(s) ==> !p.silent(s))
    && (forall line :: p.reason(line).Some? ==> "//" <= LStrip(line))
  }

  function StripComment(line: string): string {
    match Find(line, "//", 0) case None => line case Some(i) => line[..i]
  }

  predicate IsMark(p: Patterns, line: string) { p.reason(line).Some? }

  predicate IsSite(p: Patterns, line: string) { p.silent(StripComment(line)) }

  /** The reason on the nearest marker among line `i` and those down to line `low`. */
  function Nearest(p: Patterns, lines: seq<string>, i: int, low: int): Option<string>
    requires i < |lines| && low >= 0
    decreases i
  {
    if i < low then None
    else if IsMark(p, lines[i]) then p.reason(lines[i])
    else Nearest(p, lines, i - 1, low)
  }

  /** A counted wait: its line, from 1, and what excuses it. */
  datatype Site = Site(line: nat, reason: Option<string>)

  function Low(i: nat): nat { if i > WINDOW then i - WINDOW else 0 }

  function SitesIn(p: Patterns, lines: seq<string>, n: nat): seq<Site>
    requires n <= |lines|
  {
    if n == 0 then []
    else SitesIn(p, lines, n - 1)
         + if IsSite(p, lines[n - 1]) then [Site(n, Nearest(p, lines, n - 1, Low(n - 1)))] else []
  }

  function MarksIn(p: Patterns, lines: seq<string>, n: nat): nat
    requires n <= |lines|
  {
    if n == 0 then 0 else MarksIn(p, lines, n - 1) + if IsMark(p, lines[n - 1]) then 1 else 0
  }

  method ScanText(p: Patterns, text: string) returns (sites: seq<Site>, marks: nat)
    ensures var lines := Lines(text);
            sites == SitesIn(p, lines, |lines|) && marks == MarksIn(p, lines, |lines|)
  {
    var lines := Lines(text);
    sites, marks := [], 0;
    for i := 0 to |lines|
      invariant sites == SitesIn(p, lines, i) && marks == MarksIn(p, lines, i)
    {
      if IsMark(p, lines[i]) { marks := marks + 1; }
      if IsSite(p, lines[i]) {
        var reason: Option<string> := None;
        var j: int := i;
        while j >= Low(i) && reason.None?
          invariant -1 <= j <= i
          invariant Nearest(p, lines, i, Low(i)) == if reason.Some? then reason else Nearest(p, lines, j, Low(i))
          decreases j, reason.None?
        {
          reason := p.reason(lines[j]);
          j := j - 1;
        }
        sites := sites + [Site(i + 1, reason)];
      }
    }
  }

  // --- what a marker covers ---

  /** A wait is excused exactly by a marker on its own line or among the four above. */
  lemma {:induction false} NearestIsInWindow(p: Patterns, lines: seq<string>, i: int, low: int)
    requires i < |lines| && low >= 0
    ensures Nearest(p, lines, i, low).Some? <==> exists j :: low <= j <= i && IsMark(p, lines[j])
    decreases i
  {
    if i >= low && !IsMark(p, lines[i]) { NearestIsInWindow(p, lines, i - 1, low); }
  }

  /** A marker line is never itself a wait. */
  lemma MarkIsNoSite(p: Patterns, line: string)
    requires Lawful(p) && IsMark(p, line)
    ensures !IsSite(p, line)
  {
    LStripSplit(line);
    var k := |line| - |LStrip(line)|;
    assert line[k..] == LStrip(line);
    var at := Find(line, "//", 0);
    assert at.Some? && at.value <= k;
    assert Blank(line[..at.value]) by {
      assert forall i :: 0 <= i < at.value ==> line[i] == line[..k][i];
    }
  }

  /** Every counted wait of the first `n` lines is excused. */
  predicate AllExcused(sites: seq<Site>) { forall i :: 0 <= i < |sites| ==> sites[i].reason.Some? }

  /** How many of the lines from `n` on the last marker still covers. */
  function Cover(p: Patterns, lines: seq<string>, n: nat): nat
    requires n <= |lines|
  {
    if n == 0 then 0
    else if IsMark(p, lines[n - 1]) then WINDOW
    else if Cover(p, lines, n - 1) > 0 then Cover(p, lines, n - 1) - 1 else 0
  }

  lemma {:induction false} MarkCovers(p: Patterns, lines: seq<string>, j: nat, n: nat)
    requires j < n <= |lines| && n <= j + WINDOW && IsMark(p, lines[j])
    ensures Cover(p, lines, n) >= WINDOW - (n - 1 - j)
    decreases n
  {
    if n - 1 > j { MarkCovers(p, lines, j, n - 1); }
  }

  lemma ExcusedIsCovered(p: Patterns, lines: seq<string>, i: nat)
    requires i < |lines| && !IsMark(p, lines[i]) && Nearest(p, lines, i, Low(i)).Some?
    ensures Cover(p, lines, i) > 0
  {
    NearestIsInWindow(p, lines, i, Low(i));
    var j :| Low(i) <= j <= i && IsMark(p, lines[j]);
    MarkCovers(p, lines, j, i);
  }

  /** Each marker pays for four lines: waits counted and lines still covered never exceed that. */
  lemma {:induction false} WaitsAreCovered(p: Patterns, lines: seq<string>, n: nat)
    requires Lawful(p) && n <= |lines| && AllExcused(SitesIn(p, lines, n))
    ensures |SitesIn(p, lines, n)| + Cover(p, lines, n) <= WINDOW * MarksIn(p, lines, n)
  {
    if n > 0 {
      var was, now := SitesIn(p, lines, n - 1), SitesIn(p, lines, n);
      assert forall i :: 0 <= i < |was| ==> was[i] == now[i];
      WaitsAreCovered(p, lines, n - 1);
      if IsMark(p, lines[n - 1]) {
        MarkIsNoSite(p, lines[n - 1]);
      } else if IsSite(p, lines[n - 1]) {
        assert now[|now| - 1] == Site(n, Nearest(p, lines, n - 1, Low(n - 1)));
        ExcusedIsCovered(p, lines, n - 1);
      }
    }
  }

  // --- the whole shell ---

  function AllSites(p: Patterns, texts: seq<string>): seq<Site> {
    if texts == [] then []
    else
      var lines := Lines(texts[|texts| - 1]);
      AllSites(p, texts[..|texts| - 1]) + SitesIn(p, lines, |lines|)
  }

  function AllMarks(p: Patterns, texts: seq<string>): nat {
    if texts == [] then 0
    else
      var lines := Lines(texts[|texts| - 1]);
      AllMarks(p, texts[..|texts| - 1]) + MarksIn(p, lines, |lines|)
  }

  method Scan(p: Patterns, texts: seq<string>) returns (sites: seq<Site>, marks: nat)
    ensures sites == AllSites(p, texts) && marks == AllMarks(p, texts)
  {
    sites, marks := [], 0;
    for i := 0 to |texts|
      invariant sites == AllSites(p, texts[..i]) && marks == AllMarks(p, texts[..i])
    {
      assert texts[..i + 1][..i] == texts[..i];
      var s, m := ScanText(p, texts[i]);
      sites, marks := sites + s, marks + m;
    }
    assert texts[..|texts|] == texts;
  }

  /** The verdict of `main`: every wait excused, and no more markers than recorded. */
  predicate Passes(p: Patterns, texts: seq<string>, allowed: int) {
    AllExcused(AllSites(p, texts)) && AllMarks(p, texts) <= allowed
  }

  lemma {:induction false} ExcusedAreBounded(p: Patterns, texts: seq<string>)
    requires Lawful(p) && AllExcused(AllSites(p, texts))
    ensures |AllSites(p, texts)| <= WINDOW * AllMarks(p, texts)
  {
    if texts != [] {
      var init, lines := texts[..|texts| - 1], Lines(texts[|texts| - 1]);
      var a, b := AllSites(p, init), SitesIn(p, lines, |lines|);
      assert forall i :: 0 <= i < |a| ==> a[i] == (a + b)[i];
      assert forall i :: 0 <= i < |b| ==> b[i] == (a + b)[|a| + i];
      ExcusedAreBounded(p, init);
      WaitsAreCovered(p, lines, |lines|);
    }
  }

  // --- the recorded number ---

  /** `load_baseline`: the first number of the first line that is not a comment, 0 without one; `None`
      when it does not read as a number. */
  function Recorded(num: Numerals, lines: seq<string>): Option<int> {
    if lines == [] then Some(0)
    else
      var s := Strip(lines[0]);
      if s == "" || s[0] == '#' then Recorded(num, lines[1..])
      else
        var words := Wrap.Words(s);
        if words == [] then None else num.toInt(words[0])
  }

  function AllowedBy(num: Numerals, file: Option<string>): Option<int> {
    if file.None? then Some(0) else Recorded(num, Lines(file.value))
  }

  const OWNER := "services/shell"

  /** The file `--bless` writes for this many markers. */
  function BlessedFile(header: seq<string>, marks: nat): string {
    Unlines(header + [ToDec(marks) + Spaces(2) + OWNER, ""])
  }

  lemma {:induction false} RecordedSkips(num: Numerals, header: seq<string>, rest: seq<string>)
    requires Comments(header)
    ensures Recorded(num, header + rest) == Recorded(num, rest)
  {
    if header == [] {
      assert header + rest == rest;
    } else {
      assert (header + rest)[1..] == header[1..] + rest;
      RecordedSkips(num, header[1..], rest);
      CommentSkipped(OneWay, num, header[0]);
      assert LStrip(header[0]) == header[0];
      RStripSplit(header[0]);
      if header[0] != "" && Strip(header[0]) != "" { assert Strip(header[0])[0] == header[0][0]; }
    }
  }

  /** What `--bless` records is what the next check allows. */
  lemma BlessedIsAllowed(num: Numerals, header: seq<string>, marks: nat)
    requires BaselineFile.Lawful(num) && Comments(header)
    ensures AllowedBy(num, Some(BlessedFile(header, marks))) == Some(marks)
  {
    var d := ToDec(marks);
    var line := d + Spaces(2) + OWNER;
    DigitsShow(marks);
    var lines := header + [line, ""];
    assert forall i :: 0 <= i < |header| ==> lines[i] == header[i];
    LinesUnlines(lines);
    RecordedSkips(num, header, [line, ""]);
    var s := Strip(line);
    assert line == Spaces(0) + d + Spaces(2) + OWNER;
    StripCount(0, d, OWNER);
    assert RStrip(OWNER) == OWNER;
    assert s == d + (Spaces(2) + OWNER);
    RunOfWord(d, Spaces(2) + OWNER);
    assert s[..|d|] == d;
  }

  /** In every passing tree the waits are at most four times the exceptions recorded. */
  lemma PassingTreesAreBounded(p: Patterns, num: Numerals, file: Option<string>, texts: seq<string>)
    requires Lawful(p) && AllowedBy(num, file).Some? && Passes(p, texts, AllowedBy(num, file).value)
    ensures |AllSites(p, texts)| <= WINDOW * AllowedBy(num, file).value
  {
    ExcusedAreBounded(p, texts);
  }

  /** The bound is reached: a marker and four waits under it. */
  lemma BoundIsReached(p: Patterns, mark: string, wait: string)
    requires Lawful(p) && IsMark(p, mark) && IsSite(p, wait) && !IsMark(p, wait)
    ensures var lines := [mark, wait, wait, wait, wait];
            AllExcused(SitesIn(p, lines, 5)) && |SitesIn(p, lines, 5)| == WINDOW * MarksIn(p, lines, 5)
  {
    var lines := [mark, wait, wait, wait, wait];
    MarkIsNoSite(p, mark);
    assert SitesIn(p, lines, 1) == [];
    assert MarksIn(p, lines, 1) == 1;
    NearestIsInWindow(p, lines, 1, 0);
    NearestIsInWindow(p, lines, 2, 0);
    NearestIsInWindow(p, lines, 3, 0);
    NearestIsInWindow(p, lines, 4, 0);
    assert IsMark(p, lines[0]);
    assert AllExcused(SitesIn(p, lines, 2)) && |SitesIn(p, lines, 2)| == 1 && MarksIn(p, lines, 2) == 1;
    assert AllExcused(SitesIn(p, lines, 3)) && |SitesIn(p, lines, 3)| == 2 && MarksIn(p, lines, 3) == 1;
    assert AllExcused(SitesIn(p, lines, 4)) && |SitesIn(p, lines, 4)| == 3 && MarksIn(p, lines, 4) == 1;
  }
}
