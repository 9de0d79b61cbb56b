/** Violations against their exemptions: `apply_baseline` and the verdict of scripts/commandments.py. */
module ApplyBaseline {

  datatype Violation = Violation(path: string, line: nat, detail: string)

  /** An entry of the baseline: what it exempts, how many, and whether it cites an amendment and still
      owes a reason. */
  datatype Exemption = Exemption(check: string, path: string, count: nat, amended: bool, todo: bool)

  datatype Complaint = Unfounded(path: string) | Stale(path: string) | Loose(path: string, actual: nat, count: nat)

  /** The violations of one path, in order. */
  function Of(vs: seq<Violation>, path: string): seq<Violation> {
    if vs == [] then []
    else Of(vs[..|vs| - 1], path) + if vs[|vs| - 1].path == path then [vs[|vs| - 1]] else []
  }

  /** The paths in the order they are first seen. */
  function Order(vs: seq<Violation>): seq<string> {
    if vs == [] then []
    else
      var init := Order(vs[..|vs| - 1]);
      if vs[|vs| - 1].path in init then init else init + [vs[|vs| - 1].path]
  }

  /** The largest count pinned on a path; only entries that cite an amendment when `amended`. */
  function Largest(exs: seq<Exemption>, id: string, path: string, amended: bool): nat {
    if exs == [] then 0
    else
      var e, m := exs[|exs| - 1], Largest(exs[..|exs| - 1], id, path, amended);
      if e.check == id && e.path == path && (amended ==> e.amended) && e.count > m then e.count else m
  }

  function Allowed(exs: seq<Exemption>, id: string, path: string): nat { Largest(exs, id, path, true) }

  function Left(vs: seq<Violation>, allowed: nat): seq<Violation> {
    if |vs| > allowed then vs[allowed..] else []
  }

  /** What is left of each path beyond what its exemptions allow. */
  function Unexcused(id: string, vs: seq<Violation>, exs: seq<Exemption>, order: seq<string>): seq<Violation> {
    if order == [] then []
    else
      var path := order[|order| - 1];
      Unexcused(id, vs, exs, order[..|order| - 1]) + Left(Of(vs, path), Allowed(exs, id, path))
  }

  function Complain(e: Exemption, actual: nat): seq<Complaint> {
    if !e.amended || e.todo then [Unfounded(e.path)]
    else if actual == 0 then [Stale(e.path)]
    else if actual < e.count then [Loose(e.path, actual, e.count)]
    else []
  }

  function Complaints(id: string, vs: seq<Violation>, exs: seq<Exemption>): seq<Complaint> {
    if exs == [] then []
    else
      var e := exs[|exs| - 1];
      Complaints(id, vs, exs[..|exs| - 1]) + if e.check == id then Complain(e, |Of(vs, e.path)|) else []
  }

  // --- the code ---

  /** `by_path`, with the order its keys were put in. */
  method ByPath(vs: seq<Violation>) returns (byPath: map<string, seq<Violation>>, order: seq<string>)
    ensures order == Order(vs)
    ensures byPath.Keys == set path | path in order
    ensures forall path :: path in byPath ==> byPath[path] == Of(vs, path)
    ensures forall path :: path !in byPath ==> Of(vs, path) == []
  {
    byPath, order := map[], [];
    for i := 0 to |vs|
      invariant order == Order(vs[..i])
      invariant byPath.Keys == set path | path in order
      invariant forall path :: path in byPath ==> byPath[path] == Of(vs[..i], path)
      invariant forall path :: path !in byPath ==> Of(vs[..i], path) == []
    {
      assert vs[..i + 1][..i] == vs[..i];
      var path := vs[i].path;
      if path !in byPath {
        byPath, order := byPath[path := []], order + [path];
      }
      byPath := byPath[path := byPath[path] + [vs[i]]];
    }
    assert vs[..|vs|] == vs;
  }

  method MaxCount(exs: seq<Exemption>, id: string, path: string) returns (allowed: nat)
    ensures allowed == Allowed(exs, id, path)
  {
    allowed := 0;
    for i := 0 to |exs|
      invariant allowed == Allowed(exs[..i], id, path)
    {
      assert exs[..i + 1][..i] == exs[..i];
      if exs[i].check == id && exs[i].path == path && exs[i].amended && exs[i].count > allowed {
        allowed := exs[i].count;
      }
    }
    assert exs[..|exs|] == exs;
  }

  method Ratchet(id: string, vs: seq<Violation>, exs: seq<Exemption>, byPath: map<string, seq<Violation>>)
    returns (ratchet: seq<Complaint>)
    requires forall path :: path in byPath ==> byPath[path] == Of(vs, path)
    requires forall path :: path !in byPath ==> Of(vs, path) == []
    ensures ratchet == Complaints(id, vs, exs)
  {
    ratchet := [];
    for i := 0 to |exs|
      invariant ratchet == Complaints(id, vs, exs[..i])
    {
      assert exs[..i + 1][..i] == exs[..i];
      if exs[i].check == id {
        var actual := if exs[i].path in byPath then |byPath[exs[i].path]| else 0;
        ratchet := ratchet + Complain(exs[i], actual);
      }
    }
    assert exs[..|exs|] == exs;
  }

  method Apply(id: string, vs: seq<Violation>, exs: seq<Exemption>)
    returns (unexcused: seq<Violation>, ratchet: seq<Complaint>)
    ensures unexcused == Unexcused(id, vs, exs, Order(vs))
    ensures ratchet == Complaints(id, vs, exs)
  {
    var byPath, order := ByPath(vs);
    ratchet := Ratchet(id, vs, exs, byPath);
    unexcused := [];
    for i := 0 to |order|
      invariant unexcused == Unexcused(id, vs, exs, order[..i])
    {
      assert order[..i + 1][..i] == order[..i];
      var group := byPath[order[i]];
      var allowed := MaxCount(exs, id, order[i]);
      if |group| > allowed { unexcused := unexcused + group[allowed..]; }
    }
    assert order[..|order|] == order;
  }

  // --- what is left of each path ---

  lemma {:induction false} OfConcat(a: seq<Violation>, b: seq<Violation>, path: string)
    ensures Of(a + b, path) == Of(a, path) + Of(b, path)
  {
    if b == [] {
      assert a + b == a;
    } else {
      assert (a + b)[..|a + b| - 1] == a + b[..|b| - 1];
      OfConcat(a, b[..|b| - 1], path);
    }
  }

  lemma {:induction false} OfHasPath(vs: seq<Violation>, path: string)
    ensures forall i :: 0 <= i < |Of(vs, path)| ==> Of(vs, path)[i].path == path
  {
    if vs != [] { OfHasPath(vs[..|vs| - 1], path); }
  }

  /** Violations of one path, sorted by path: all of them for that path, none for another. */
  lemma {:induction false} OfUniform(vs: seq<Violation>, path: string, other: string)
    requires forall i :: 0 <= i < |vs| ==> vs[i].path == path
    ensures Of(vs, other) == if other == path then vs else []
  {
    if vs != [] {
      OfUniform(vs[..|vs| - 1], path, other);
      assert vs == vs[..|vs| - 1] + [vs[|vs| - 1]];
    }
  }

  predicate Distinct(order: seq<string>) {
    forall i, j :: 0 <= i < j < |order| ==> order[i] != order[j]
  }

  lemma {:induction false} OrderIsExact(vs: seq<Violation>, path: string)
    ensures Distinct(Order(vs))
    ensures path in Order(vs) <==> Of(vs, path) != []
  {
    if vs != [] { OrderIsExact(vs[..|vs| - 1], path); }
  }

  lemma LeftHasPath(vs: seq<Violation>, path: string, allowed: nat, other: string)
    ensures Of(Left(Of(vs, path), allowed), other) == if other == path then Left(Of(vs, path), allowed) else []
  {
    OfHasPath(vs, path);
    OfUniform(Left(Of(vs, path), allowed), path, other);
  }

  lemma {:induction false} UnexcusedInOrder(id: string, vs: seq<Violation>, exs: seq<Exemption>, order: seq<string>,
      path: string)
    requires Distinct(order)
    ensures Of(Unexcused(id, vs, exs, order), path) ==
            if path in order then Left(Of(vs, path), Allowed(exs, id, path)) else []
  {
    if order != [] {
      var init, last := order[..|order| - 1], order[|order| - 1];
      assert order == init + [last];
      UnexcusedInOrder(id, vs, exs, init, path);
      OfConcat(Unexcused(id, vs, exs, init), Left(Of(vs, last), Allowed(exs, id, last)), path);
      LeftHasPath(vs, last, Allowed(exs, id, last), path);
    }
  }

  /** Every path leaves exactly its violations beyond the allowed count, and keeps the first of them. */
  lemma UnexcusedIsTheExcess(id: string, vs: seq<Violation>, exs: seq<Exemption>, path: string)
    ensures var out, n, allowed := Unexcused(id, vs, exs, Order(vs)), |Of(vs, path)|, Allowed(exs, id, path);
            && Of(out, path) == Left(Of(vs, path), allowed)
            && |Of(out, path)| == if n > allowed then n - allowed else 0
  {
    OrderIsExact(vs, path);
    UnexcusedInOrder(id, vs, exs, Order(vs), path);
  }

  lemma {:induction false} SomePath(vs: seq<Violation>)
    requires vs != []
    ensures Of(vs, vs[|vs| - 1].path) != []
  {
  }

  // --- when nothing is reported ---

  predicate Founded(e: Exemption) { e.amended && !e.todo }

  /** Every exemption of the check is founded and matches something. */
  predicate AllLive(id: string, vs: seq<Violation>, exs: seq<Exemption>) {
    forall i :: 0 <= i < |exs| && exs[i].check == id ==> Founded(exs[i]) && Of(vs, exs[i].path) != []
  }

  predicate AllTight(id: string, vs: seq<Violation>, exs: seq<Exemption>) {
    forall i :: 0 <= i < |exs| && exs[i].check == id ==> exs[i].count <= |Of(vs, exs[i].path)|
  }

  /** Each path has exactly the violations pinned on it: none without an exemption. */
  ghost predicate AsPinned(id: string, vs: seq<Violation>, exs: seq<Exemption>) {
    forall path :: |Of(vs, path)| == Largest(exs, id, path, false)
  }

  predicate Fine(id: string, vs: seq<Violation>, e: Exemption) {
    e.check == id ==> Founded(e) && Of(vs, e.path) != [] && e.count <= |Of(vs, e.path)|
  }

  lemma {:induction false} ComplaintsEmpty(id: string, vs: seq<Violation>, exs: seq<Exemption>)
    ensures Complaints(id, vs, exs) == [] <==> forall i :: 0 <= i < |exs| ==> Fine(id, vs, exs[i])
  {
    if exs != [] {
      var init := exs[..|exs| - 1];
      ComplaintsEmpty(id, vs, init);
      assert forall i :: 0 <= i < |init| ==> init[i] == exs[i];
    }
  }

  lemma {:induction false} LargestBounds(exs: seq<Exemption>, id: string, path: string, n: nat)
    ensures Largest(exs, id, path, false) <= n <==>
            forall i :: 0 <= i < |exs| && exs[i].check == id && exs[i].path == path ==> exs[i].count <= n
  {
    if exs != [] {
      var init := exs[..|exs| - 1];
      LargestBounds(init, id, path, n);
      assert forall i :: 0 <= i < |init| ==> init[i] == exs[i];
      assert exs == init + [exs[|exs| - 1]];
    }
  }

  lemma {:induction false} FoundedLargest(exs: seq<Exemption>, id: string, path: string)
    requires forall i :: 0 <= i < |exs| && exs[i].check == id ==> exs[i].amended
    ensures Allowed(exs, id, path) == Largest(exs, id, path, false)
  {
    if exs != [] {
      var init := exs[..|exs| - 1];
      assert forall i :: 0 <= i < |init| ==> init[i] == exs[i];
      FoundedLargest(init, id, path);
    }
  }

  ghost predicate NoneOver(id: string, vs: seq<Violation>, exs: seq<Exemption>) {
    forall path :: |Of(vs, path)| <= Allowed(exs, id, path)
  }

  lemma UnexcusedEmpty(id: string, vs: seq<Violation>, exs: seq<Exemption>)
    ensures Unexcused(id, vs, exs, Order(vs)) == [] <==> NoneOver(id, vs, exs)
  {
    var out := Unexcused(id, vs, exs, Order(vs));
    if out == [] {
      forall path
        ensures |Of(vs, path)| <= Allowed(exs, id, path)
      {
        UnexcusedIsTheExcess(id, vs, exs, path);
      }
    } else {
      var path := out[|out| - 1].path;
      SomePath(out);
      UnexcusedIsTheExcess(id, vs, exs, path);
      assert !(|Of(vs, path)| <= Allowed(exs, id, path));
    }
  }

  /** Nothing is reported exactly when every exemption is founded and live and every path has exactly
      the violations pinned on it. */
  lemma CleanExactly(id: string, vs: seq<Violation>, exs: seq<Exemption>)
    ensures Unexcused(id, vs, exs, Order(vs)) == [] && Complaints(id, vs, exs) == [] <==>
            AllLive(id, vs, exs) && AsPinned(id, vs, exs)
  {
    UnexcusedEmpty(id, vs, exs);
    ComplaintsEmpty(id, vs, exs);
    assert (forall i :: 0 <= i < |exs| ==> Fine(id, vs, exs[i])) <==> AllLive(id, vs, exs) && AllTight(id, vs, exs);
    if AllLive(id, vs, exs) {
      forall path
        ensures Allowed(exs, id, path) == Largest(exs, id, path, false)
      {
        FoundedLargest(exs, id, path);
      }
      if AllTight(id, vs, exs) && NoneOver(id, vs, exs) {
        forall path
          ensures |Of(vs, path)| == Largest(exs, id, path, false)
        {
          LargestBounds(exs, id, path, |Of(vs, path)|);
          assert |Of(vs, path)| <= Allowed(exs, id, path);
        }
      }
      if AsPinned(id, vs, exs) {
        forall i | 0 <= i < |exs| && exs[i].check == id
          ensures exs[i].count <= |Of(vs, exs[i].path)|
        {
          LargestBounds(exs, id, exs[i].path, |Of(vs, exs[i].path)|);
        }
        assert NoneOver(id, vs, exs);
      }
    }
  }

  // --- the verdict ---

  type Result = (string, seq<Violation>)

  ghost predicate CheckClean(c: Result, exs: seq<Exemption>) { AllLive(c.0, c.1, exs) && AsPinned(c.0, c.1, exs) }

  /** The verdict over all checks: the build passes exactly when every check is clean. */
  method Verdict(checks: seq<Result>, exs: seq<Exemption>) returns (pass: bool)
    ensures pass <==> forall i :: 0 <= i < |checks| ==> CheckClean(checks[i], exs)
  {
    var failures: seq<(string, Violation)> := [];
    var ratchets: seq<Complaint> := [];
    for i := 0 to |checks|
      invariant failures == [] && ratchets == [] <==> forall j :: 0 <= j < i ==> CheckClean(checks[j], exs)
    {
      var unexcused, ratchet := Apply(checks[i].0, checks[i].1, exs);
      CleanExactly(checks[i].0, checks[i].1, exs);
      failures := failures + seq(|unexcused|, k requires 0 <= k < |unexcused| => (checks[i].0, unexcused[k]));
      ratchets := ratchets + ratchet;
    }
    pass := failures == [] && ratchets == [];
  }

  /** An entry that cites an amendment but owes its reason still excuses the violations it counts: only
      the complaint about it stops the build. */
  lemma TodoStillExcuses(v: Violation, id: string)
    ensures var exs := [Exemption(id, v.path, 1, true, true)];
            && Unexcused(id, [v], exs, Order([v])) == []
            && Complaints(id, [v], exs) == [Unfounded(v.path)]
  {
    var exs := [Exemption(id, v.path, 1, true, true)];
    assert exs[..0] == [] && [v][..0] == [];
    assert Order([v]) == [v.path] && [v.path][..0] == [];
    assert Largest([], id, v.path, true) == 0;
    assert Allowed(exs, id, v.path) == 1;
    assert Complaints(id, [v], []) == [] && Unexcused(id, [v], exs, []) == [];
    assert Of([], v.path) == [] && Of([v], v.path) == [v];
  }
}
