/** The ratchets over whole histories, through the files that hold them: scripts/one_way_check.py,
    scripts/shared_surface_check.py, scripts/scaffold_check.py. */
module Ratchets {
  import opened Text
  import opened BaselineFile

  type Base = map<string, int>

  function Allowed(base: Base, name: string): int { if name in base then base[name] else 0 }

  /** The count a baseline leaves room for; a count is never negative. */
  function Room(base: Base, name: string): nat { if Allowed(base, name) > 0 then Allowed(base, name) else 0 }

  /** No recorded count grew. */
  predicate Within(tree: seq<Entry>, base: Base) {
    forall i :: 0 <= i < |tree| ==> tree[i].1 <= Allowed(base, tree[i].0)
  }

  ghost predicate Below(b: Base, a: Base) { forall name :: Room(b, name) <= Room(a, name) }

  predicate Fits(tree: seq<Entry>, base: Base) {
    forall i :: 0 <= i < |tree| ==> tree[i].1 <= Room(base, tree[i].0)
  }

  /** Recording counts that fit a baseline gives a baseline below it. */
  lemma {:induction false} RecordedBelow(tree: seq<Entry>, base: Base)
    requires Fits(tree, base)
    ensures Below(ToMap(tree), base)
  {
    if tree != [] {
      var init, last := tree[..|tree| - 1], tree[|tree| - 1];
      assert forall i :: 0 <= i < |init| ==> init[i] == tree[i];
      RecordedBelow(init, base);
      forall name
        ensures Room(ToMap(tree), name) <= Room(base, name)
      {
        if name != last.0 { assert Room(ToMap(init), name) <= Room(base, name); }
      }
    }
  }

  lemma FitsLower(tree: seq<Entry>, low: Base, high: Base)
    requires Fits(tree, low) && Below(low, high)
    ensures Fits(tree, high)
  {
    forall i | 0 <= i < |tree|
      ensures tree[i].1 <= Room(high, tree[i].0)
    {
      assert Room(low, tree[i].0) <= Room(high, tree[i].0);
    }
  }

  /** What the scripts take from outside: how numbers read, and the comment lines they write. */
  datatype Setting = Setting(num: Numerals, header: seq<string>)

  ghost predicate Proper(cfg: Setting) { Lawful(cfg.num) && Comments(cfg.header) }

  // --- raw calls: one count a crate, a crate not listed is held to zero ---

  datatype OneWayState = OneWayState(file: Option<string>, tree: seq<Entry>)

  datatype Step = Edit(tree: seq<Entry>) | Check | Bless

  function Counts(cfg: Setting, file: Option<string>): Option<Base> {
    if file.None? then Some(map[]) else ReadFile(OneWay, cfg.num, file.value)
  }

  predicate Passes(cfg: Setting, st: OneWayState) {
    var base := Counts(cfg, st.file);
    base.Some? && Within(st.tree, base.value)
  }

  function Nonzero(tree: seq<Entry>): seq<Entry> {
    if tree == [] then []
    else Nonzero(tree[..|tree| - 1]) + if tree[|tree| - 1].1 != 0 then [tree[|tree| - 1]] else []
  }

  function After(cfg: Setting, st: OneWayState, step: Step): OneWayState {
    match step
    case Edit(tree) => st.(tree := tree)
    case Check => st
    case Bless => st.(file := Some(PrintFile(OneWay, cfg.header, Nonzero(st.tree))))
  }

  /** Trees hold names the file can carry, and a bless follows only a passing check. */
  predicate Legal(cfg: Setting, st: OneWayState, step: Step) {
    match step
    case Edit(tree) => Carried(OneWay, tree)
    case Check => true
    case Bless => Passes(cfg, st)
  }

  function Run(cfg: Setting, st: OneWayState, steps: seq<Step>): OneWayState {
    if steps == [] then st else After(cfg, Run(cfg, st, steps[..|steps| - 1]), steps[|steps| - 1])
  }

  predicate LegalRun(cfg: Setting, st: OneWayState, steps: seq<Step>) {
    steps == [] ||
    (LegalRun(cfg, st, steps[..|steps| - 1])
     && Legal(cfg, Run(cfg, st, steps[..|steps| - 1]), steps[|steps| - 1]))
  }

  lemma {:induction false} NonzeroFits(tree: seq<Entry>, base: Base)
    requires Carried(OneWay, tree) && Within(tree, base)
    ensures Fits(Nonzero(tree), base) && Carried(OneWay, Nonzero(tree))
  {
    if tree != [] {
      var init, last := tree[..|tree| - 1], tree[|tree| - 1];
      assert forall i :: 0 <= i < |init| ==> init[i] == tree[i];
      assert last.1 <= Allowed(base, last.0) && Good(OneWay, last.0);
      NonzeroFits(init, base);
    }
  }

  /** One step: the recorded counts only fall. */
  lemma StepFalls(cfg: Setting, st: OneWayState, step: Step, base: Base)
    requires Proper(cfg) && Carried(OneWay, st.tree) && Legal(cfg, st, step)
    requires Counts(cfg, st.file) == Some(base)
    ensures var now := Counts(cfg, After(cfg, st, step).file); now.Some? && Below(now.value, base)
    ensures Carried(OneWay, After(cfg, st, step).tree)
  {
    if step.Bless? {
      NonzeroFits(st.tree, base);
      FileRoundTrips(OneWay, cfg.num, cfg.header, Nonzero(st.tree));
      RecordedBelow(Nonzero(st.tree), base);
    }
  }

  /** Over any history of edits, checks and blesses: the baseline only falls, and a tree that passes
      later fits every baseline before it. */
  lemma {:induction false} HistoryFalls(cfg: Setting, st: OneWayState, steps: seq<Step>, base: Base)
    requires Proper(cfg) && Carried(OneWay, st.tree) && LegalRun(cfg, st, steps)
    requires Counts(cfg, st.file) == Some(base)
    ensures var now := Run(cfg, st, steps);
            && Counts(cfg, now.file).Some? && Below(Counts(cfg, now.file).value, base)
            && Carried(OneWay, now.tree)
            && (Passes(cfg, now) ==> Fits(now.tree, base))
  {
    if steps != [] {
      var before := Run(cfg, st, steps[..|steps| - 1]);
      HistoryFalls(cfg, st, steps[..|steps| - 1], base);
      StepFalls(cfg, before, steps[|steps| - 1], Counts(cfg, before.file).value);
    }
    var now := Run(cfg, st, steps);
    BelowTrans(Counts(cfg, now.file).value, if steps == [] then base
        else Counts(cfg, Run(cfg, st, steps[..|steps| - 1]).file).value, base);
    if Passes(cfg, now) {
      FitsLower(now.tree, Counts(cfg, now.file).value, base);
    }
  }

  lemma BelowTrans(a: Base, b: Base, c: Base)
    requires Below(a, b) && Below(b, c)
    ensures Below(a, c)
  {
    forall name
      ensures Room(a, name) <= Room(c, name)
    {
      assert Room(a, name) <= Room(b, name) <= Room(c, name);
    }
  }

  /** The crates whose count rose, with what was allowed. */
  function Grew(tree: seq<Entry>, base: Base): (r: seq<Entry>) {
    if tree == [] then []
    else
      var e := tree[|tree| - 1];
      Grew(tree[..|tree| - 1], base) + if e.1 > Allowed(base, e.0) then [e] else []
  }

  lemma {:induction false} GrewIsEmpty(tree: seq<Entry>, base: Base)
    ensures Grew(tree, base) == [] <==> Within(tree, base)
  {
    if tree != [] {
      var init := tree[..|tree| - 1];
      GrewIsEmpty(init, base);
      assert forall i :: 0 <= i < |init| ==> init[i] == tree[i];
    }
  }

  class OneWayCheck {
    const cfg: Setting
    var file: Option<string>

    constructor (cfg: Setting, file: Option<string>)
      ensures this.cfg == cfg && this.file == file
    {
      this.cfg, this.file := cfg, file;
    }

    /** The verdict on a tree; `None` when the baseline cannot be read. */
    method Verdict(tree: seq<Entry>) returns (grew: Option<seq<Entry>>)
      ensures (grew == Some([])) == Passes(cfg, OneWayState(file, tree))
      ensures grew.Some? ==> Counts(cfg, file).Some? && grew.value == Grew(tree, Counts(cfg, file).value)
    {
      var base: Option<Base> := Some(map[]);
      if file.Some? { base := LoadBaseline(OneWay, cfg.num, file.value); }
      if base.None? { return None; }
      var found: seq<Entry> := [];
      for i := 0 to |tree|
        invariant found == Grew(tree[..i], base.value)
      {
        assert tree[..i + 1][..i] == tree[..i];
        if tree[i].1 > Allowed(base.value, tree[i].0) { found := found + [tree[i]]; }
      }
      assert tree[..|tree|] == tree;
      GrewIsEmpty(tree, base.value);
      grew := Some(found);
    }

    /** `--bless` */
    method Record(tree: seq<Entry>)
      modifies this
      ensures OneWayState(file, tree) == After(cfg, OneWayState(old(file), tree), Bless)
    {
      var listed: seq<Entry> := [];
      for i := 0 to |tree|
        invariant listed == Nonzero(tree[..i])
        invariant file == old(file)
      {
        assert tree[..i + 1][..i] == tree[..i];
        if tree[i].1 != 0 { listed := listed + [tree[i]]; }
      }
      assert tree[..|tree|] == tree;
      file := Some(PrintFile(OneWay, cfg.header, listed));
    }
  }
}
