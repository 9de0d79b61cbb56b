/** The fixer and the gates it takes its scope from: `fix_decidable` of scripts/conform.py,
    scripts/line_ending_check.py, scripts/dash_check.py. */
module FixerGates {
  import opened Text

  // --- which files must be LF ---

  datatype Kind = Lf | Binary

  datatype Rule = Rule(pattern: string, kind: Kind)

  /** `matches`: a directory, an extension or a plain path; `None` for a pattern of another shape. */
  function Matches(rel: string, pattern: string): Option<bool> {
    if EndsWith(pattern, "/**") then Some(StartsWith(rel, pattern[..|pattern| - 2]))
    else if StartsWith(pattern, "*.") then Some(EndsWith(rel, pattern[1..]))
    else if '*' !in pattern then Some(rel == pattern)
    else None
  }

  predicate Applies(rel: string, rule: Rule) { Matches(rel, rule.pattern) == Some(true) }

  /** The verdict of the last rule that applies. */
  function Verdict(rules: seq<Rule>, rel: string): Option<Kind> {
    if rules == [] then None
    else if Applies(rel, rules[|rules| - 1]) then Some(rules[|rules| - 1].kind)
    else Verdict(rules[..|rules| - 1], rel)
  }

  method FindVerdict(rules: seq<Rule>, rel: string) returns (verdict: Option<Kind>)
    ensures verdict == Verdict(rules, rel)
  {
    verdict := None;
    for i := 0 to |rules|
      invariant verdict == Verdict(rules[..i], rel)
    {
      assert rules[..i + 1][..i] == rules[..i];
      if Applies(rel, rules[i]) { verdict := Some(rules[i].kind); }
    }
    assert rules[..|rules|] == rules;
  }

  /** Rule `i` applies and none below it does. */
  predicate Decides(rules: seq<Rule>, rel: string, i: int) {
    0 <= i < |rules| && Applies(rel, rules[i]) && forall j :: i < j < |rules| ==> !Applies(rel, rules[j])
  }

  lemma DecidesSnoc(rules: seq<Rule>, last: Rule, rel: string, i: int)
    ensures Decides(rules + [last], rel, i) <==>
            if Applies(rel, last) then i == |rules| else Decides(rules, rel, i)
  {
    var all := rules + [last];
    assert all[|rules|] == last;
    assert forall j :: 0 <= j < |rules| ==> all[j] == rules[j];
  }

  /** Last match wins: a rule decides exactly when the verdict is its kind and no other rule decides. */
  lemma {:induction false} LastMatchWins(rules: seq<Rule>, rel: string, i: int)
    ensures Decides(rules, rel, i) ==> Verdict(rules, rel) == Some(rules[i].kind)
    ensures Verdict(rules, rel).Some? ==> exists k :: Decides(rules, rel, k)
  {
    if rules != [] {
      var init, last := rules[..|rules| - 1], rules[|rules| - 1];
      assert rules == init + [last];
      LastMatchWins(init, rel, i);
      DecidesSnoc(init, last, rel, i);
      if Applies(rel, last) {
        DecidesSnoc(init, last, rel, |init|);
      } else if Verdict(rules, rel).Some? {
        var k :| Decides(init, rel, k);
        DecidesSnoc(init, last, rel, k);
      }
    }
  }

  // --- the text of one file ---

  const EM: char := '\U{2014}'
  const EN: char := '\U{2013}'
  const CR: char := '\r'

  predicate HasDash(s: string) { EM in s || EN in s }

  function Hyphen(c: char): char { if c == EM || c == EN then '-' else c }

  /** Every em-dash and en-dash made a hyphen. */
  function Hyphenated(s: string): (r: string)
    ensures |r| == |s|
  {
    seq(|s|, i requires 0 <= i < |s| => Hyphen(s[i]))
  }

  /** `s.replace("\r\n", "\n")` */
  function Unix(s: string): string {
    if |s| < 2 then s
    else if s[0] == CR && s[1] == NEWLINE then [NEWLINE] + Unix(s[2..])
    else [s[0]] + Unix(s[1..])
  }

  predicate PairAt(s: string, i: int) { 0 <= i < |s| - 1 && s[i] == CR && s[i + 1] == NEWLINE }

  ghost predicate HasPair(s: string) { exists i :: PairAt(s, i) }

  /** `"\r\n" in s` */
  predicate PairIn(s: string) { |s| >= 2 && (PairAt(s, 0) || PairIn(s[1..])) }

  /** Every carriage return is followed by a newline. */
  predicate Paired(s: string) { forall i :: 0 <= i < |s| && s[i] == CR ==> i + 1 < |s| && s[i + 1] == NEWLINE }

  /** A carriage return, then a carriage return and a newline. */
  predicate TripleAt(s: string, i: int) {
    0 <= i < |s| - 2 && s[i] == CR && s[i + 1] == CR && s[i + 2] == NEWLINE
  }

  ghost predicate HasTriple(s: string) { exists i :: TripleAt(s, i) }

  function Fix(s: string, lf: bool): string {
    var t := if HasDash(s) then Hyphenated(s) else s;
    if lf && PairIn(t) then Unix(t) else t
  }

  lemma HyphenatedKeeps(s: string)
    ensures !HasDash(Hyphenated(s))
    ensures !HasDash(s) ==> Hyphenated(s) == s
    ensures HasPair(Hyphenated(s)) <==> HasPair(s)
    ensures Paired(Hyphenated(s)) <==> Paired(s)
    ensures HasTriple(Hyphenated(s)) <==> HasTriple(s)
  {
    var r := Hyphenated(s);
    assert forall i :: 0 <= i < |s| ==> (r[i] == CR <==> s[i] == CR) && (r[i] == NEWLINE <==> s[i] == NEWLINE);
    assert forall i :: PairAt(r, i) <==> PairAt(s, i);
    assert forall i :: TripleAt(r, i) <==> TripleAt(s, i);
    if Paired(r) {
      forall i | 0 <= i < |s| && s[i] == CR
        ensures i + 1 < |s| && s[i + 1] == NEWLINE
      {
        assert r[i] == CR;
      }
    }
  }

  // The facts about the carriage returns of a text, from its first character.

  lemma PairCons(c: char, s: string)
    ensures HasPair([c] + s) <==> (c == CR && s != "" && s[0] == NEWLINE) || HasPair(s)
  {
    var t := [c] + s;
    if i :| PairAt(s, i) { assert PairAt(t, i + 1); }
    if i :| PairAt(t, i) { if i > 0 { assert PairAt(s, i - 1); } }
    if c == CR && s != "" && s[0] == NEWLINE { assert PairAt(t, 0); }
  }

  lemma TripleCons(c: char, s: string)
    ensures HasTriple([c] + s) <==> (c == CR && PairAt(s, 0)) || HasTriple(s)
  {
    var t := [c] + s;
    if i :| TripleAt(s, i) { assert TripleAt(t, i + 1); }
    if i :| TripleAt(t, i) { if i > 0 { assert TripleAt(s, i - 1); } }
    if c == CR && PairAt(s, 0) { assert TripleAt(t, 0); }
  }

  lemma {:induction false} PairInIsHasPair(s: string)
    ensures PairIn(s) <==> HasPair(s)
  {
    if |s| >= 2 {
      assert s == [s[0]] + s[1..];
      PairCons(s[0], s[1..]);
      PairInIsHasPair(s[1..]);
    }
  }

  lemma PairedCons(c: char, s: string)
    ensures Paired([c] + s) <==> (c == CR ==> s != "" && s[0] == NEWLINE) && Paired(s)
  {
    var t := [c] + s;
    assert forall i :: 0 <= i < |s| ==> t[i + 1] == s[i];
    if Paired(t) {
      assert t[0] == c;
      forall i | 0 <= i < |s| && s[i] == CR
        ensures i + 1 < |s| && s[i + 1] == NEWLINE
      {
        assert t[i + 1] == CR;
      }
    }
    if (c == CR ==> s != "" && s[0] == NEWLINE) && Paired(s) {
      forall i | 0 <= i < |t| && t[i] == CR
        ensures i + 1 < |t| && t[i + 1] == NEWLINE
      {
        if i > 0 { assert s[i - 1] == CR; }
      }
    }
  }

  /** What comes first after the rewriting. */
  lemma UnixFirst(s: string)
    ensures Unix(s) == "" <==> s == ""
    ensures s != "" ==> (Unix(s)[0] == NEWLINE <==>
              s[0] == NEWLINE || (|s| >= 2 && s[0] == CR && s[1] == NEWLINE))
  {
  }

  /** Rewriting leaves no carriage return exactly when each was followed by a newline. */
  lemma {:induction false} UnixClears(s: string)
    ensures CR !in Unix(s) <==> Paired(s)
    decreases |s|
  {
    if |s| >= 2 {
      assert s == [s[0]] + s[1..];
      PairedCons(s[0], s[1..]);
      if s[0] == CR && s[1] == NEWLINE {
        assert s[1..] == [s[1]] + s[2..];
        PairedCons(s[1], s[2..]);
        UnixClears(s[2..]);
      } else {
        UnixClears(s[1..]);
      }
    }
  }

  /** Rewriting leaves a pair exactly when a carriage return stood before one. */
  lemma {:induction false} UnixLeavesPair(s: string)
    ensures HasPair(Unix(s)) <==> HasTriple(s)
    decreases |s|
  {
    if |s| >= 2 {
      assert s == [s[0]] + s[1..];
      TripleCons(s[0], s[1..]);
      if s[0] == CR && s[1] == NEWLINE {
        assert s[1..] == [s[1]] + s[2..];
        TripleCons(s[1], s[2..]);
        PairCons(NEWLINE, Unix(s[2..]));
        UnixLeavesPair(s[2..]);
      } else {
        PairCons(s[0], Unix(s[1..]));
        UnixFirst(s[1..]);
        UnixLeavesPair(s[1..]);
      }
    }
  }

  lemma {:induction false} UnixKeepsDashless(s: string)
    requires !HasDash(s)
    ensures !HasDash(Unix(s))
    decreases |s|
  {
    if |s| >= 2 {
      if s[0] == CR && s[1] == NEWLINE { UnixKeepsDashless(s[2..]); } else { UnixKeepsDashless(s[1..]); }
    }
  }

  lemma {:induction false} UnixShortens(s: string)
    ensures |Unix(s)| <= |s|
    ensures HasPair(s) ==> |Unix(s)| < |s|
    ensures !HasPair(s) ==> Unix(s) == s
    decreases |s|
  {
    if |s| >= 2 {
      assert s == [s[0]] + s[1..];
      PairCons(s[0], s[1..]);
      if s[0] == CR && s[1] == NEWLINE {
        UnixShortens(s[2..]);
      } else {
        UnixShortens(s[1..]);
      }
    }
  }

  /** The fixer changes a text exactly when it holds a dash, or must be LF and holds CR LF. */
  lemma FixChangesExactly(s: string, lf: bool)
    ensures Fix(s, lf) != s <==> HasDash(s) || (lf && HasPair(s))
  {
    HyphenatedKeeps(s);
    PairInIsHasPair(s);
    PairInIsHasPair(Hyphenated(s));
    UnixShortens(s);
    UnixShortens(Hyphenated(s));
  }

  /** Afterwards there is no dash, and under LF no carriage return exactly when each was paired. */
  lemma FixClears(s: string, lf: bool)
    ensures !HasDash(Fix(s, lf))
    ensures lf ==> (CR !in Fix(s, lf) <==> Paired(s))
  {
    HyphenatedKeeps(s);
    var t := if HasDash(s) then Hyphenated(s) else s;
    UnixKeepsDashless(t);
    UnixClears(t);
    PairInIsHasPair(t);
    UnixShortens(t);
  }

  /** A second run changes nothing exactly when no carriage return stood before a CR LF. */
  lemma FixIsIdempotent(s: string, lf: bool)
    ensures Fix(Fix(s, lf), lf) == Fix(s, lf) <==> !(lf && HasTriple(s))
  {
    HyphenatedKeeps(s);
    var t := if HasDash(s) then Hyphenated(s) else s;
    FixChangesExactly(Fix(s, lf), lf);
    FixClears(s, lf);
    UnixLeavesPair(t);
    PairInIsHasPair(t);
    UnixShortens(t);
  }

  lemma PairedHasNoTriple(s: string)
    requires Paired(s)
    ensures !HasTriple(s)
  {
    if i :| TripleAt(s, i) { assert false; }
  }

  // --- the tree ---

  /** A file: text, or bytes that are not UTF-8, with or without a carriage return. */
  datatype Content = Chars(s: string) | Raw(cr: bool)

  type Files = map<string, Content>

  /** What the scripts read from the repository: the attribute rules, the files a walk finds, those
      tracked, which of them have a text suffix, which are fixtures, and the escaped spellings of a dash. */
  datatype Repo = Repo(
    rules: seq<Rule>, walked: set<string>, tracked: seq<string>, isText: string -> bool,
    fixture: string -> bool, escaped: string -> bool)

  predicate LfOnly(repo: Repo, path: string) {
    path in repo.walked && Verdict(repo.rules, path) == Some(Lf)
  }

  predicate InScope(repo: Repo, files: Files, path: string) {
    path in files && repo.isText(path) && files[path].Chars?
  }

  function Fixed(repo: Repo, files: Files, path: string): string
    requires InScope(repo, files, path)
  {
    Fix(files[path].s, LfOnly(repo, path))
  }

  predicate Touched(repo: Repo, files: Files, path: string) {
    InScope(repo, files, path) && Fixed(repo, files, path) != files[path].s
  }

  function FixAll(repo: Repo, files: Files, paths: seq<string>): Files {
    if paths == [] then files
    else
      var done, path := FixAll(repo, files, paths[..|paths| - 1]), paths[|paths| - 1];
      if Touched(repo, done, path) then done[path := Chars(Fixed(repo, done, path))] else done
  }

  function Changed(repo: Repo, files: Files, paths: seq<string>): seq<string> {
    if paths == [] then []
    else
      Changed(repo, files, paths[..|paths| - 1])
      + if Touched(repo, files, paths[|paths| - 1]) then [paths[|paths| - 1]] else []
  }

  predicate Distinct(paths: seq<string>) { forall i, j :: 0 <= i < j < |paths| ==> paths[i] != paths[j] }

  /** Fixing leaves every file as its own fix, whatever the order. */
  lemma {:induction false} FixAllAt(repo: Repo, files: Files, paths: seq<string>, path: string)
    requires Distinct(paths)
    ensures FixAll(repo, files, paths).Keys == files.Keys
    ensures path in files ==>
              && var now := FixAll(repo, files, paths)[path];
              && (path in paths && InScope(repo, files, path) ==> now == Chars(Fixed(repo, files, path)))
              && (!(path in paths && InScope(repo, files, path)) ==> now == files[path])
  {
    if paths != [] {
      var init, last := paths[..|paths| - 1], paths[|paths| - 1];
      assert paths == init + [last];
      assert last !in init;
      FixAllAt(repo, files, init, path);
      FixAllAt(repo, files, init, last);
    }
  }

  /** The new text of one file, and how many things changed in it. */
  method FixText(was: string, lf: bool) returns (now: string, what: nat)
    ensures now == Fix(was, lf) && (what > 0 <==> now != was)
  {
    now, what := was, 0;
    if HasDash(now) {
      now, what := Hyphenated(now), what + 1;
    }
    if lf && PairIn(now) {
      now, what := Unix(now), what + 1;
    }
    FixChangesExactly(was, lf);
    WhatIsFound(was, lf);
  }

  /** A file not reached yet is as it was. */
  lemma NotYet(repo: Repo, files: Files, paths: seq<string>, i: nat)
    requires Distinct(paths) && i < |paths|
    ensures var done := FixAll(repo, files, paths[..i]);
            && Touched(repo, done, paths[i]) == Touched(repo, files, paths[i])
            && (InScope(repo, files, paths[i]) ==>
                  InScope(repo, done, paths[i]) && Fixed(repo, done, paths[i]) == Fixed(repo, files, paths[i]))
  {
    FixAllAt(repo, files, paths[..i], paths[i]);
  }

  class WorkTree {
    var files: Files

    constructor (files: Files)
      ensures this.files == files
    {
      this.files := files;
    }

    /** One file: whether it needs fixing, and the fix when asked for. */
    method FixFile(repo: Repo, apply: bool, path: string) returns (touched: bool)
      modifies this
      ensures touched == Touched(repo, old(files), path)
      ensures files == if touched && apply then old(files)[path := Chars(Fixed(repo, old(files), path))] else old(files)
    {
      touched := false;
      if path in files && repo.isText(path) && files[path].Chars? {
        var verdict := FindVerdict(repo.rules, path);
        var now, what := FixText(files[path].s, path in repo.walked && verdict == Some(Lf));
        touched := what > 0;
        if touched && apply { files := files[path := Chars(now)]; }
      }
    }

    /** `fix_decidable` */
    method FixDecidable(repo: Repo, apply: bool) returns (changed: seq<string>)
      requires Distinct(repo.tracked)
      modifies this
      ensures changed == Changed(repo, old(files), repo.tracked)
      ensures files == if apply then FixAll(repo, old(files), repo.tracked) else old(files)
    {
      changed := [];
      for i := 0 to |repo.tracked|
        invariant changed == Changed(repo, old(files), repo.tracked[..i])
        invariant files == if apply then FixAll(repo, old(files), repo.tracked[..i]) else old(files)
      {
        var path := repo.tracked[i];
        assert repo.tracked[..i + 1][..i] == repo.tracked[..i];
        NotYet(repo, old(files), repo.tracked, i);
        var touched := FixFile(repo, apply, path);
        if touched { changed := changed + [path]; }
      }
      assert repo.tracked[..|repo.tracked|] == repo.tracked;
    }
  }

  /** The fixer's own conditions, in the order it asks them. */
  lemma WhatIsFound(s: string, lf: bool)
    ensures var t := if HasDash(s) then Hyphenated(s) else s;
            HasDash(s) || (lf && HasPair(s)) <==> HasDash(s) || (lf && PairIn(t))
  {
    HyphenatedKeeps(s);
    PairInIsHasPair(s);
  }

  // --- the gates ---

  /** The dash gate reports the file. */
  predicate DashFails(repo: Repo, files: Files, path: string) {
    && path in repo.tracked && !repo.fixture(path) && InScope(repo, files, path)
    && (HasDash(files[path].s) || repo.escaped(files[path].s))
  }

  predicate HasCR(c: Content) { match c case Chars(s) => CR in s case Raw(cr) => cr }

  /** The line-ending gate reports the file. */
  predicate LineFails(repo: Repo, files: Files, path: string) {
    path in files && LfOnly(repo, path) && HasCR(files[path])
  }

  /** On a tracked text file outside the fixtures, with no escaped dash and no stray carriage return, the
      fixer acts exactly when a gate fails, and afterwards no gate fails for a literal dash or a
      carriage return. */
  lemma FixerAgreesWithGates(repo: Repo, files: Files, path: string)
    requires Distinct(repo.tracked) && path in repo.tracked && InScope(repo, files, path)
    requires !repo.fixture(path) && !repo.escaped(files[path].s) && Paired(files[path].s)
    ensures Touched(repo, files, path) <==> DashFails(repo, files, path) || LineFails(repo, files, path)
    ensures var after := FixAll(repo, files, repo.tracked);
            && !LineFails(repo, after, path)
            && (DashFails(repo, after, path) <==> repo.escaped(Fixed(repo, files, path)))
  {
    var s := files[path].s;
    FixChangesExactly(s, LfOnly(repo, path));
    FixClears(s, LfOnly(repo, path));
    FixAllAt(repo, files, repo.tracked, path);
    PairedMeansPairs(s);
  }

  lemma PairedMeansPairs(s: string)
    requires Paired(s)
    ensures HasPair(s) <==> CR in s
  {
    if CR in s {
      var i :| 0 <= i < |s| && s[i] == CR;
      assert PairAt(s, i);
    }
    if i :| PairAt(s, i) { assert s[i] == CR; }
  }

  lemma {:induction false} ChangedIsEmpty(repo: Repo, files: Files, paths: seq<string>)
    ensures Changed(repo, files, paths) == [] <==> forall i :: 0 <= i < |paths| ==> !Touched(repo, files, paths[i])
  {
    if paths != [] {
      var init := paths[..|paths| - 1];
      ChangedIsEmpty(repo, files, init);
      assert forall i :: 0 <= i < |init| ==> init[i] == paths[i];
    }
  }

  /** A file the first run leaves for a second. */
  ghost predicate Lingers(repo: Repo, files: Files, path: string) {
    InScope(repo, files, path) && LfOnly(repo, path) && HasTriple(files[path].s)
  }

  /** A second run finds nothing to do exactly when no LF file held a carriage return before a CR LF. */
  lemma SecondRunIsIdle(repo: Repo, files: Files)
    requires Distinct(repo.tracked)
    ensures Changed(repo, FixAll(repo, files, repo.tracked), repo.tracked) == [] <==>
            forall i :: 0 <= i < |repo.tracked| ==> !Lingers(repo, files, repo.tracked[i])
  {
    var after := FixAll(repo, files, repo.tracked);
    ChangedIsEmpty(repo, after, repo.tracked);
    forall i | 0 <= i < |repo.tracked|
      ensures Touched(repo, after, repo.tracked[i]) <==> Lingers(repo, files, repo.tracked[i])
    {
      var path := repo.tracked[i];
      FixAllAt(repo, files, repo.tracked, path);
      if InScope(repo, files, path) { FixIsIdempotent(files[path].s, LfOnly(repo, path)); }
    }
  }

  /** A fixture with a dash: the fixer rewrites it, and no gate asked for that. */
  lemma FixtureIsRewritten(repo: Repo, files: Files, path: string)
    requires Distinct(repo.tracked) && path in repo.tracked && InScope(repo, files, path)
    requires repo.fixture(path) && HasDash(files[path].s) && CR !in files[path].s
    ensures Touched(repo, files, path) && !DashFails(repo, files, path) && !LineFails(repo, files, path)
  {
    FixChangesExactly(files[path].s, LfOnly(repo, path));
  }
}
