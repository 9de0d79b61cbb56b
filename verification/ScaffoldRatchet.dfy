/** The upward ratchet on port milestones: `main` of scripts/scaffold_check.py. */
module ScaffoldRatchet {
  import opened Text
  import opened BaselineFile
  import opened Ratchets

  /** The file, and the milestones measured here; an architecture that cannot be built has none. */
  datatype State = State(file: Option<string>, reached: seq<Entry>)

  function Recorded(cfg: Setting, file: Option<string>): Option<Base> {
    if file.None? then Some(map[]) else ReadFile(Scaffold, cfg.num, file.value)
  }

  /** No measured milestone is below its record. */
  predicate Held(reached: seq<Entry>, base: Base) {
    forall i :: 0 <= i < |reached| ==> reached[i].0 in base ==> base[reached[i].0] <= reached[i].1
  }

  predicate Passes(cfg: Setting, st: State) {
    Recorded(cfg, st.file).Some? && Held(st.reached, Recorded(cfg, st.file).value)
  }

  /** The step that blesses names the lines it writes: the record updated with what was measured, in
      some order. */
  datatype Step = Measure(reached: seq<Entry>) | Check | Bless(lines: seq<Entry>)

  function After(cfg: Setting, st: State, step: Step): State {
    match step
    case Measure(reached) => st.(reached := reached)
    case Check => st
    case Bless(lines) => st.(file := Some(PrintFile(Scaffold, cfg.header, lines)))
  }

  predicate Legal(cfg: Setting, st: State, step: Step) {
    match step
    case Measure(reached) => Carried(Scaffold, reached)
    case Check => true
    case Bless(lines) => Passes(cfg, st) && ToMap(lines) == Recorded(cfg, st.file).value + ToMap(st.reached)
  }

  function Run(cfg: Setting, st: State, steps: seq<Step>): State {
    if steps == [] then st else After(cfg, Run(cfg, st, steps[..|steps| - 1]), steps[|steps| - 1])
  }

  predicate LegalRun(cfg: Setting, st: State, steps: seq<Step>) {
    steps == [] ||
    (LegalRun(cfg, st, steps[..|steps| - 1])
     && Legal(cfg, Run(cfg, st, steps[..|steps| - 1]), steps[|steps| - 1]))
  }

  /** Every record of `a` is still there and has not gone down. */
  predicate Rises(a: Base, b: Base) { forall name :: name in a ==> name in b && a[name] <= b[name] }

  predicate AllGood(names: set<string>) {
    forall name :: name in names ==> Good(Scaffold, name)
  }

  /** What a recorded name reads as comes from an entry of that name. */
  lemma {:induction false} MapFromEntry(entries: seq<Entry>, name: string) returns (i: nat)
    requires name in ToMap(entries)
    ensures i < |entries| && entries[i] == (name, ToMap(entries)[name])
  {
    var last := entries[|entries| - 1];
    if name == last.0 {
      i := |entries| - 1;
    } else {
      i := MapFromEntry(entries[..|entries| - 1], name);
    }
  }

  lemma LinesCarried(lines: seq<Entry>)
    requires AllGood(ToMap(lines).Keys)
    ensures Carried(Scaffold, lines)
  {
    ToMapKeys(lines);
  }

  lemma MeasuredGood(reached: seq<Entry>)
    requires Carried(Scaffold, reached)
    ensures AllGood(ToMap(reached).Keys)
  {
    forall name | name in ToMap(reached)
      ensures Good(Scaffold, name)
    {
      var i := MapFromEntry(reached, name);
    }
  }

  /** What a bless reads back as: the record updated with what was measured. */
  lemma BlessedReads(cfg: Setting, st: State, lines: seq<Entry>)
    requires Ratchets.Proper(cfg) && Carried(Scaffold, st.reached) && Legal(cfg, st, Step.Bless(lines))
    ensures Recorded(cfg, After(cfg, st, Step.Bless(lines)).file) ==
            Some(Recorded(cfg, st.file).value + ToMap(st.reached))
  {
    if st.file.Some? { NamesReadAreGood(Scaffold, cfg.num, st.file.value); }
    MeasuredGood(st.reached);
    LinesCarried(lines);
    FileRoundTrips(Scaffold, cfg.num, cfg.header, lines);
  }

  /** One step: no record is lost or lowered, and one not measured keeps its value. */
  lemma StepRises(cfg: Setting, st: State, step: Step, base: Base)
    requires Ratchets.Proper(cfg) && Carried(Scaffold, st.reached) && Legal(cfg, st, step)
    requires Recorded(cfg, st.file) == Some(base)
    ensures var now := Recorded(cfg, After(cfg, st, step).file);
            && now.Some? && Rises(base, now.value)
            && forall name :: name in base && name !in ToMap(st.reached) ==> now.value[name] == base[name]
    ensures Carried(Scaffold, After(cfg, st, step).reached)
  {
    if step.Bless? {
      BlessedReads(cfg, st, step.lines);
      forall name | name in base && name in ToMap(st.reached)
        ensures base[name] <= ToMap(st.reached)[name]
      {
        var i := MapFromEntry(st.reached, name);
      }
    }
  }

  /** Over any history of measurements, checks and blesses: every milestone once recorded stays recorded
      and never goes down, and measurements that pass later hold every earlier record. */
  lemma {:induction false} HistoryRises(cfg: Setting, st: State, steps: seq<Step>, base: Base)
    requires Ratchets.Proper(cfg) && Carried(Scaffold, st.reached) && LegalRun(cfg, st, steps)
    requires Recorded(cfg, st.file) == Some(base)
    ensures var now := Run(cfg, st, steps);
            && Recorded(cfg, now.file).Some? && Rises(base, Recorded(cfg, now.file).value)
            && Carried(Scaffold, now.reached)
            && (Passes(cfg, now) ==> Held(now.reached, base))
  {
    if steps != [] {
      var before := Run(cfg, st, steps[..|steps| - 1]);
      HistoryRises(cfg, st, steps[..|steps| - 1], base);
      StepRises(cfg, before, steps[|steps| - 1], Recorded(cfg, before.file).value);
    }
  }
}
