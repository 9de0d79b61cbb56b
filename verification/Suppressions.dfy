/** The `conform-ok` marker: what it exempts, and the cache that counts it: scripts/conform_ok.py. */
module Suppressions {
  import opened Text

  /** The patterns of the format: a marker's codes and reason, a fence line, the codes some checker
      honours, and upper case. */
  datatype Patterns = Patterns(
    marker: string -> Option<(set<string>, string)>, fence: string -> bool, honoured: set<string>,
    upper: string -> string)

  predicate IsBlank(line: string) { Strip(line) == "" }

  datatype Why = NoReason | NoRule | Unhonoured(codes: set<string>)

  type Problem = (nat, Why)

  /** Why the marker of a line is refused, when it is. */
  function Refusal(p: Patterns, line: string): Option<Why> {
    match p.marker(line)
    case None => None
    case Some((codes, reason)) =>
      if reason == "" then Some(NoReason)
      else if codes == {} then Some(NoRule)
      else if codes - p.honoured != {} then Some(Unhonoured(codes - p.honoured))
      else None
  }

  predicate Accepted(p: Patterns, line: string) { p.marker(line).Some? && Refusal(p, line).None? }

  // --- what a marker covers ---

  function NextVisible(lines: seq<string>, j: nat): (r: nat)
    requires j <= |lines|
    ensures j <= r <= |lines|
    ensures r < |lines| ==> !IsBlank(lines[r])
    decreases |lines| - j
  {
    if j < |lines| && IsBlank(lines[j]) then NextVisible(lines, j + 1) else j
  }

  function NextFence(p: Patterns, lines: seq<string>, k: nat): (r: nat)
    requires k <= |lines|
    ensures k <= r <= |lines|
    ensures r < |lines| ==> p.fence(lines[r])
    decreases |lines| - k
  {
    if k < |lines| && !p.fence(lines[k]) then NextFence(p, lines, k + 1) else k
  }

  /** The lines a marker on line `i` covers besides its own, from 0, end excluded. */
  function Scope(p: Patterns, lines: seq<string>, i: nat): (r: (nat, nat))
    requires i < |lines|
    ensures r.0 < r.1 <= |lines|
  {
    var j := NextVisible(lines, i + 1);
    if j == |lines| then (i, i + 1)
    else if p.fence(lines[j]) then
      var k := NextFence(p, lines, j + 1);
      (j, if k < |lines| then k + 1 else k)
    else (j, j + 1)
  }

  predicate Reaches(p: Patterns, lines: seq<string>, i: nat, n: int)
    requires i < |lines|
  {
    n == i || Scope(p, lines, i).0 <= n < Scope(p, lines, i).1
  }

  /** The codes line `n` is exempt from, by the markers on the first `upto` lines. */
  function Exempt(p: Patterns, lines: seq<string>, upto: nat, n: int): set<string>
    requires upto <= |lines|
  {
    if upto == 0 then {}
    else
      Exempt(p, lines, upto - 1, n)
      + if Accepted(p, lines[upto - 1]) && Reaches(p, lines, upto - 1, n)
        then p.marker(lines[upto - 1]).value.0 else {}
  }

  function Problems(p: Patterns, lines: seq<string>, upto: nat): seq<Problem>
    requires upto <= |lines|
  {
    if upto == 0 then []
    else
      Problems(p, lines, upto - 1)
      + match Refusal(p, lines[upto - 1]) case None => [] case Some(why) => [(upto, why)]
  }

  // --- the scan ---

  type Table = map<int, set<string>>

  function Codes(t: Table, n: int): set<string> { if n in t then t[n] else {} }

  /** `now` has the codes of `was`, and these besides on the lines given. */
  ghost predicate Added(was: Table, now: Table, from: nat, end: nat, codes: set<string>) {
    forall n :: Codes(now, n) == Codes(was, n) + if from <= n < end then codes else {}
  }

  method AddCodes(t: Table, from: nat, end: nat, codes: set<string>) returns (r: Table)
    requires from <= end
    ensures Added(t, r, from, end, codes)
  {
    r := t;
    for m := from to end
      invariant Added(t, r, from, m, codes)
    {
      ghost var was := r;
      r := r[m := Codes(r, m) + codes];
      AddedNext(t, was, r, from, m, codes);
    }
  }

  lemma AddedNext(t: Table, was: Table, now: Table, from: nat, m: nat, codes: set<string>)
    requires from <= m && Added(t, was, from, m, codes) && now == was[m := Codes(was, m) + codes]
    ensures Added(t, now, from, m + 1, codes)
  {
    forall n
      ensures Codes(now, n) == Codes(t, n) + if from <= n < m + 1 then codes else {}
    {
      assert Codes(was, n) == Codes(t, n) + if from <= n < m then codes else {};
    }
  }

  method FindScope(p: Patterns, lines: seq<string>, i: nat) returns (from: nat, end: nat)
    requires i < |lines|
    ensures (from, end) == Scope(p, lines, i)
  {
    var j := i + 1;
    while j < |lines| && IsBlank(lines[j])
      invariant i + 1 <= j <= |lines| && NextVisible(lines, j) == NextVisible(lines, i + 1)
    {
      j := j + 1;
    }
    if j == |lines| { return i, i + 1; }
    if !p.fence(lines[j]) { return j, j + 1; }
    var k := j + 1;
    while k < |lines| && !p.fence(lines[k])
      invariant j + 1 <= k <= |lines| && NextFence(p, lines, k) == NextFence(p, lines, j + 1)
    {
      k := k + 1;
    }
    return j, if k < |lines| then k + 1 else k;
  }

  /** The table gives every line its exempted codes; lines are counted from 1. */
  ghost predicate Faithful(t: Table, p: Patterns, lines: seq<string>, upto: nat)
    requires upto <= |lines|
  {
    forall n :: Codes(t, n) == Exempt(p, lines, upto, n - 1)
  }

  /** Record the codes of the marker on line `i`. */
  method Grant(p: Patterns, lines: seq<string>, i: nat, t: Table) returns (r: Table)
    requires i < |lines| && p.marker(lines[i]).Some?
    ensures Granted(p, lines, i, t, r)
  {
    var codes := p.marker(lines[i]).value.0;
    var from, end := FindScope(p, lines, i);
    var mid := AddCodes(t, from + 1, end + 1, codes);
    r := AddCodes(mid, i + 1, i + 2, codes);
    MarkerAdds(p, lines, i, t, mid, r);
  }

  method ScanLines(p: Patterns, lines: seq<string>) returns (t: Table, problems: seq<Problem>)
    ensures Faithful(t, p, lines, |lines|)
    ensures problems == Problems(p, lines, |lines|)
  {
    t, problems := map[], [];
    for i := 0 to |lines|
      invariant Faithful(t, p, lines, i)
      invariant problems == Problems(p, lines, i)
    {
      ghost var was := t;
      var why := Refusal(p, lines[i]);
      if why.Some? {
        problems := problems + [(i + 1, why.value)];
      } else if p.marker(lines[i]).Some? {
        t := Grant(p, lines, i, t);
      }
      ScanStep(p, lines, i, was, t);
    }
  }

  /** The lines line `i` reaches got its codes. */
  ghost predicate Granted(p: Patterns, lines: seq<string>, i: nat, was: Table, now: Table)
    requires i < |lines| && p.marker(lines[i]).Some?
  {
    forall n :: Codes(now, n) == Codes(was, n) + if Reaches(p, lines, i, n - 1) then p.marker(lines[i]).value.0 else {}
  }

  lemma MarkerAdds(p: Patterns, lines: seq<string>, i: nat, was: Table, mid: Table, now: Table)
    requires i < |lines| && p.marker(lines[i]).Some?
    requires Added(was, mid, Scope(p, lines, i).0 + 1, Scope(p, lines, i).1 + 1, p.marker(lines[i]).value.0)
    requires Added(mid, now, i + 1, i + 2, p.marker(lines[i]).value.0)
    ensures Granted(p, lines, i, was, now)
  {
    var codes, s := p.marker(lines[i]).value.0, Scope(p, lines, i);
    forall n
      ensures Codes(now, n) == Codes(was, n) + if Reaches(p, lines, i, n - 1) then codes else {}
    {
      assert Codes(mid, n) == Codes(was, n) + if s.0 + 1 <= n < s.1 + 1 then codes else {};
      assert Codes(now, n) == Codes(mid, n) + if i + 1 <= n < i + 2 then codes else {};
    }
  }

  lemma ScanStep(p: Patterns, lines: seq<string>, i: nat, was: Table, now: Table)
    requires i < |lines| && Faithful(was, p, lines, i)
    requires !Accepted(p, lines[i]) ==> now == was
    requires Accepted(p, lines[i]) ==> Granted(p, lines, i, was, now)
    ensures Faithful(now, p, lines, i + 1)
  {
    forall n
      ensures Codes(now, n) == Exempt(p, lines, i + 1, n - 1)
    {
      assert Codes(was, n) == Exempt(p, lines, i, n - 1);
    }
  }

  /** A line is exempt from a code exactly when an accepted marker naming it stands on that line or has
      it in scope; a refused marker exempts nothing. */
  lemma {:induction false} ExemptExactly(p: Patterns, lines: seq<string>, upto: nat, n: int, code: string)
    requires upto <= |lines|
    ensures code in Exempt(p, lines, upto, n) <==>
            exists i :: 0 <= i < upto && Accepted(p, lines[i]) && code in p.marker(lines[i]).value.0
                        && Reaches(p, lines, i, n)
  {
    if upto > 0 { ExemptExactly(p, lines, upto - 1, n, code); }
  }

  /** A code no checker honours is never exempted. */
  lemma OnlyHonoured(p: Patterns, lines: seq<string>, n: int, code: string)
    requires code in Exempt(p, lines, |lines|, n)
    ensures code in p.honoured
  {
    ExemptExactly(p, lines, |lines|, n, code);
    var i :| 0 <= i < |lines| && Accepted(p, lines[i]) && code in p.marker(lines[i]).value.0;
    assert code !in p.marker(lines[i]).value.0 - p.honoured;
  }

  /** The problems are the refused markers, each on its line and once. */
  lemma {:induction false} ProblemsExactly(p: Patterns, lines: seq<string>, upto: nat, n: nat, why: Why)
    requires upto <= |lines|
    ensures (n, why) in Problems(p, lines, upto) <==> 0 < n <= upto && Refusal(p, lines[n - 1]) == Some(why)
    ensures forall i :: 0 <= i < |Problems(p, lines, upto)| ==> 0 < Problems(p, lines, upto)[i].0 <= upto
    ensures forall i, j :: 0 <= i < j < |Problems(p, lines, upto)| ==>
              Problems(p, lines, upto)[i].0 < Problems(p, lines, upto)[j].0
  {
    if upto > 0 { ProblemsExactly(p, lines, upto - 1, n, why); }
  }

  lemma {:induction false} VisibleIsFirst(lines: seq<string>, j: nat, m: nat)
    requires j <= |lines| && j <= m < NextVisible(lines, j)
    ensures IsBlank(lines[m])
    decreases |lines| - j
  {
    if m > j { VisibleIsFirst(lines, j + 1, m); }
  }

  /** A scope holds no blank-separated second block: before it only blank lines, inside it no fence but
      the two that bound it. */
  lemma ScopeIsNarrow(p: Patterns, lines: seq<string>, i: nat, m: nat)
    requires i < |lines|
    ensures var s := Scope(p, lines, i);
            && (i < m < s.0 ==> IsBlank(lines[m]))
            && (s.0 < m < s.1 - 1 ==> p.fence(lines[s.0]) && !p.fence(lines[m]))
  {
    var j := NextVisible(lines, i + 1);
    if i < m < j { VisibleIsFirst(lines, i + 1, m); }
    if j < |lines| && p.fence(lines[j]) && j < m < NextFence(p, lines, j + 1) {
      FenceIsFirst(p, lines, j + 1, m);
    }
  }

  lemma {:induction false} FenceIsFirst(p: Patterns, lines: seq<string>, k: nat, m: nat)
    requires k <= |lines| && k <= m < NextFence(p, lines, k)
    ensures !p.fence(lines[m])
    decreases |lines| - k
  {
    if m > k { FenceIsFirst(p, lines, k + 1, m); }
  }

  // --- the cache ---

  datatype Query = Query(path: string, line: int, code: string)

  type Report = (string, nat, Why)

  /** The lines of a file, none for one that cannot be read. */
  function LinesOf(files: map<string, string>, path: string): seq<string> {
    if path in files then Lines(files[path]) else []
  }

  /** What a fresh scan of the file answers. */
  predicate Answer(p: Patterns, files: map<string, string>, q: Query) {
    var lines := LinesOf(files, q.path);
    p.upper(q.code) in Exempt(p, lines, |lines|, q.line - 1)
  }

  function TrueAnswers(p: Patterns, files: map<string, string>, asked: seq<Query>): nat {
    if asked == [] then 0
    else TrueAnswers(p, files, asked[..|asked| - 1]) + if Answer(p, files, asked[|asked| - 1]) then 1 else 0
  }

  function Reports(path: string, problems: seq<Problem>): seq<Report> {
    seq(|problems|, i requires 0 <= i < |problems| => (path, problems[i].0, problems[i].1))
  }

  predicate AskedOf(asked: seq<Query>, path: string) { exists i :: 0 <= i < |asked| && asked[i].path == path }

  /** Each file's problems, once, in the order the files were first asked about. */
  function AllReports(p: Patterns, files: map<string, string>, asked: seq<Query>): seq<Report> {
    if asked == [] then []
    else
      var init, path := asked[..|asked| - 1], asked[|asked| - 1].path;
      var lines := LinesOf(files, path);
      AllReports(p, files, init) + if AskedOf(init, path) then [] else Reports(path, Problems(p, lines, |lines|))
  }

  /** The table is what a fresh scan of the file gives. */
  ghost predicate Fresh(t: Table, p: Patterns, files: map<string, string>, path: string) {
    Faithful(t, p, LinesOf(files, path), |LinesOf(files, path)|)
  }

  ghost predicate AllFresh(p: Patterns, files: map<string, string>, tables: map<string, Table>, asked: seq<Query>) {
    forall path :: (path in tables <==> AskedOf(asked, path))
        && (path in tables ==> Fresh(tables[path], p, files, path))
  }

  lemma AllFreshNext(p: Patterns, files: map<string, string>, tables: map<string, Table>, asked: seq<Query>, q: Query,
      t: Table)
    requires AllFresh(p, files, tables, asked) && Fresh(t, p, files, q.path)
    ensures AllFresh(p, files, tables[q.path := t], asked + [q])
  {
    AskedNext(asked, q);
  }

  lemma FreshAnswers(t: Table, p: Patterns, files: map<string, string>, q: Query)
    requires Fresh(t, p, files, q.path)
    ensures p.upper(q.code) in Codes(t, q.line) <==> Answer(p, files, q)
  {
  }

  class Cache {
    const p: Patterns
    const files: map<string, string>
    var tables: map<string, Table>
    var allowed: nat
    var problems: seq<Report>
    ghost var asked: seq<Query>

    /** Every file asked about is in the cache as a fresh scan would give it; the count and the reports
        are those of the queries so far. */
    ghost predicate Valid()
      reads this
    {
      && AllFresh(p, files, tables, asked)
      && allowed == TrueAnswers(p, files, asked)
      && problems == AllReports(p, files, asked)
    }

    constructor (p: Patterns, files: map<string, string>)
      ensures Valid() && asked == [] && this.p == p && this.files == files
    {
      this.p, this.files := p, files;
      tables, allowed, problems, asked := map[], 0, [], [];
    }

    /** `_for`, for the query about to be answered. */
    method TableFor(path: string) returns (t: Table)
      requires Valid()
      modifies this`tables, this`problems
      ensures Fresh(t, p, files, path)
      ensures tables == old(tables)[path := t]
      ensures var lines := LinesOf(files, path);
              problems ==
              old(problems) + if AskedOf(asked, path) then [] else Reports(path, Problems(p, lines, |lines|))
    {
      if path !in tables {
        var lines := LinesOf(files, path);
        var found: seq<Problem>;
        t, found := ScanLines(p, lines);
        tables := tables[path := t];
        problems := problems + Reports(path, found);
      } else {
        assert tables == tables[path := tables[path]];
      }
      t := tables[path];
    }

    /** `covers`: over any sequence of queries each answer is what a fresh scan gives. */
    method Covers(path: string, line: int, code: string) returns (yes: bool)
      requires Valid()
      modifies this
      ensures Valid() && asked == old(asked) + [Query(path, line, code)]
      ensures yes == Answer(p, files, Query(path, line, code))
      ensures allowed == old(allowed) + if yes then 1 else 0
    {
      ghost var q := Query(path, line, code);
      CountsNext(p, files, asked, q);
      var t := TableFor(path);
      AllFreshNext(p, files, old(tables), asked, q, t);
      FreshAnswers(t, p, files, q);
      yes := p.upper(code) in Codes(t, line);
      if yes { allowed := allowed + 1; }
      asked := asked + [q];
    }
  }

  lemma CountsNext(p: Patterns, files: map<string, string>, asked: seq<Query>, q: Query)
    ensures TrueAnswers(p, files, asked + [q]) == TrueAnswers(p, files, asked) + if Answer(p, files, q) then 1 else 0
    ensures var lines := LinesOf(files, q.path);
            AllReports(p, files, asked + [q]) ==
            AllReports(p, files, asked)
            + if AskedOf(asked, q.path) then [] else Reports(q.path, Problems(p, lines, |lines|))
  {
    assert (asked + [q])[..|asked|] == asked;
  }

  lemma AskedNext(asked: seq<Query>, q: Query)
    ensures forall path :: AskedOf(asked + [q], path) <==> AskedOf(asked, path) || path == q.path
  {
    forall path
      ensures AskedOf(asked + [q], path) <==> AskedOf(asked, path) || path == q.path
    {
      assert (asked + [q])[|asked|] == q;
      if AskedOf(asked, path) {
        var i :| 0 <= i < |asked| && asked[i].path == path;
        assert (asked + [q])[i] == asked[i];
      }
    }
  }
}
