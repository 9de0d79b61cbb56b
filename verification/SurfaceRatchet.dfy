/** The ratchet on two units at once, names and sites: `main` of scripts/shared_surface_check.py. */
module SurfaceRatchet {
  import opened Text
  import opened BaselineFile
  import opened Ratchets

  /** The two files, and the counts of the working tree in both units. */
  datatype State = State(names: Option<string>, sites: Option<string>, counts: seq<Entry>, places: seq<Entry>)

  datatype Headers = Headers(num: Numerals, names: seq<string>, sites: seq<string>)

  ghost predicate Proper(cfg: Headers) { Lawful(cfg.num) && Comments(cfg.names) && Comments(cfg.sites) }

  function NamesFile(cfg: Headers, st: State): string { PrintFile(Names, cfg.names, st.counts) }

  function SitesFile(cfg: Headers, st: State): string { PrintFile(Sites, cfg.sites, st.places) }

  function NamesBase(cfg: Headers, st: State): Option<Base> {
    if st.names.None? then None else ReadFile(Names, cfg.num, st.names.value)
  }

  function SitesBase(cfg: Headers, st: State): Option<Base> {
    if st.sites.None? then None else ReadFile(Sites, cfg.num, st.sites.value)
  }

  /** A check: the files it leaves, and whether it passes. A missing file is written from the tree; when
      it is the names file, nothing else is looked at. */
  function Checked(cfg: Headers, st: State): (State, bool) {
    if st.names.None? then (st.(names := Some(NamesFile(cfg, st))), true)
    else match NamesBase(cfg, st)
      case None => (st, false)
      case Some(base) =>
        if st.sites.None? then (st.(sites := Some(SitesFile(cfg, st))), Within(st.counts, base))
        else (st, SitesBase(cfg, st).Some? && Within(st.places, SitesBase(cfg, st).value) && Within(st.counts, base))
  }

  datatype Step = Edit(counts: seq<Entry>, places: seq<Entry>) | Check | Bless

  function After(cfg: Headers, st: State, step: Step): State {
    match step
    case Edit(counts, places) => st.(counts := counts, places := places)
    case Check => Checked(cfg, st).0
    case Bless => st.(names := Some(NamesFile(cfg, st)), sites := Some(SitesFile(cfg, st)))
  }

  predicate Carries(counts: seq<Entry>, places: seq<Entry>) { Carried(Names, counts) && Carried(Sites, places) }

  /** Trees hold names the files can carry, and a bless follows only a passing check. */
  predicate Legal(cfg: Headers, st: State, step: Step) {
    match step
    case Edit(counts, places) => Carries(counts, places)
    case Check => true
    case Bless => Checked(cfg, st).1
  }

  function Run(cfg: Headers, st: State, steps: seq<Step>): State {
    if steps == [] then st else After(cfg, Run(cfg, st, steps[..|steps| - 1]), steps[|steps| - 1])
  }

  predicate LegalRun(cfg: Headers, st: State, steps: seq<Step>) {
    steps == [] ||
    (LegalRun(cfg, st, steps[..|steps| - 1])
     && Legal(cfg, Run(cfg, st, steps[..|steps| - 1]), steps[|steps| - 1]))
  }

  /** The sites file does not stand alone. */
  predicate Paired(st: State) { st.sites.Some? ==> st.names.Some? }

  /** Once there is a baseline there always is one, and it only falls. */
  ghost predicate Falls(was: Option<Base>, now: Option<Base>) {
    was.Some? ==> now.Some? && Below(now.value, was.value)
  }

  lemma Written(cfg: Headers, st: State)
    requires Proper(cfg) && Carries(st.counts, st.places)
    ensures ReadFile(Names, cfg.num, NamesFile(cfg, st)) == Some(ToMap(st.counts))
    ensures ReadFile(Sites, cfg.num, SitesFile(cfg, st)) == Some(ToMap(st.places))
  {
    FileRoundTrips(Names, cfg.num, cfg.names, st.counts);
    FileRoundTrips(Sites, cfg.num, cfg.sites, st.places);
  }

  lemma WithinBelow(tree: seq<Entry>, base: Base)
    requires Within(tree, base)
    ensures Below(ToMap(tree), base)
  {
    RecordedBelow(tree, base);
  }

  lemma CheckKeeps(cfg: Headers, st: State)
    ensures var now := Checked(cfg, st).0;
            && (st.names.Some? ==> now.names == st.names) && (st.sites.Some? ==> now.sites == st.sites)
            && (Paired(st) ==> Paired(now)) && now.counts == st.counts && now.places == st.places
  {
  }

  lemma BlessFalls(cfg: Headers, st: State)
    requires Proper(cfg) && Carries(st.counts, st.places) && Paired(st) && Checked(cfg, st).1
    ensures Falls(NamesBase(cfg, st), Some(ToMap(st.counts))) && Falls(SitesBase(cfg, st), Some(ToMap(st.places)))
    ensures var now := After(cfg, st, Step.Bless);
            NamesBase(cfg, now) == Some(ToMap(st.counts)) && SitesBase(cfg, now) == Some(ToMap(st.places))
  {
    Written(cfg, st);
    if st.names.Some? { WithinBelow(st.counts, NamesBase(cfg, st).value); }
    if st.sites.Some? { WithinBelow(st.places, SitesBase(cfg, st).value); }
  }

  /** One step of a history keeps both baselines from rising. */
  lemma StepFalls(cfg: Headers, st: State, step: Step)
    requires Proper(cfg) && Carries(st.counts, st.places) && Paired(st) && Legal(cfg, st, step)
    ensures var now := After(cfg, st, step);
            && Paired(now) && Carries(now.counts, now.places)
            && Falls(NamesBase(cfg, st), NamesBase(cfg, now)) && Falls(SitesBase(cfg, st), SitesBase(cfg, now))
  {
    match step
    case Edit(_, _) =>
    case Check => CheckKeeps(cfg, st);
    case Bless => BlessFalls(cfg, st);
  }

  lemma FallsTrans(a: Option<Base>, b: Option<Base>, c: Option<Base>)
    requires Falls(a, b) && Falls(b, c)
    ensures Falls(a, c)
  {
    if a.Some? { BelowTrans(c.value, b.value, a.value); }
  }

  /** Over any history that starts with the files paired, each unit's baseline only falls. */
  lemma {:induction false} HistoryFalls(cfg: Headers, st: State, steps: seq<Step>)
    requires Proper(cfg) && Carries(st.counts, st.places) && Paired(st) && LegalRun(cfg, st, steps)
    ensures var now := Run(cfg, st, steps);
            && Paired(now) && Carries(now.counts, now.places)
            && Falls(NamesBase(cfg, st), NamesBase(cfg, now)) && Falls(SitesBase(cfg, st), SitesBase(cfg, now))
  {
    if steps != [] {
      var init := steps[..|steps| - 1];
      var before, now := Run(cfg, st, init), Run(cfg, st, steps);
      HistoryFalls(cfg, st, init);
      StepFalls(cfg, before, steps[|steps| - 1]);
      FallsTrans(NamesBase(cfg, st), NamesBase(cfg, before), NamesBase(cfg, now));
      FallsTrans(SitesBase(cfg, st), SitesBase(cfg, before), SitesBase(cfg, now));
    }
  }

  /** A tree that passes fits every earlier baseline, in both units. */
  lemma LaterPassFits(cfg: Headers, st: State, steps: seq<Step>)
    requires Proper(cfg) && Carries(st.counts, st.places) && Paired(st) && LegalRun(cfg, st, steps)
    requires Checked(cfg, Run(cfg, st, steps)).1
    ensures var now := Run(cfg, st, steps);
            && (NamesBase(cfg, st).Some? ==> Fits(now.counts, NamesBase(cfg, st).value))
            && (SitesBase(cfg, st).Some? ==> Fits(now.places, SitesBase(cfg, st).value))
  {
    var now := Run(cfg, st, steps);
    HistoryFalls(cfg, st, steps);
    if NamesBase(cfg, st).Some? {
      FitsLower(now.counts, NamesBase(cfg, now).value, NamesBase(cfg, st).value);
    }
    if SitesBase(cfg, st).Some? {
      FitsLower(now.places, SitesBase(cfg, now).value, SitesBase(cfg, st).value);
    }
  }

  /** A sites file without its companion: the check passes unseen, so a bless may raise any site count. */
  lemma UnpairedSitesRise(cfg: Headers, st: State, base: Base, name: string)
    requires Proper(cfg) && Carries(st.counts, st.places)
    requires st.names.None? && SitesBase(cfg, st) == Some(base)
    requires Room(ToMap(st.places), name) > Room(base, name)
    ensures Legal(cfg, st, Step.Bless) && !Falls(SitesBase(cfg, st), SitesBase(cfg, After(cfg, st, Step.Bless)))
  {
    Written(cfg, st);
    var now := SitesBase(cfg, After(cfg, st, Step.Bless));
    assert now == Some(ToMap(st.places));
    assert !(Room(now.value, name) <= Room(base, name));
  }
}
