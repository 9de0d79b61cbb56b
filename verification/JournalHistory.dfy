/** Whole lives of a volume: data, commits, flushes refused and honoured, power cuts and mounts, and what is
    owed to its user after each (services/fs/src/main.rs). */
module JournalHistory {
  import opened Text
  import opened Journal
  import opened JournalCommit
  import opened JournalMount

  // --- a volume in service ---

  /** No live record in the image names a block of `xs`. */
  predicate Clear(c: Codec, js: nat, img: seq<Block>, xs: set<nat>) {
    && js < |img|
    && (c.read(img[js]).Some? ==>
          forall i :: 0 <= i < |c.read(img[js]).value.homes| ==> c.read(img[js]).value.homes[i] !in xs)
  }

  /** Nothing is in flight into the journal. */
  predicate JournalStill(js: nat, d: Disk) { forall i :: 0 <= i < |d.cache| ==> !InJournal(js, d.cache[i].lba) }

  /** What a volume owes: its home, the blocks of it written past the journal since the last barrier, and
      the blocks whose last such write a power cut caught in flight. */
  datatype Promise = Promise(home: seq<Block>, recent: set<nat>, lost: set<nat>)

  /** A volume in service keeps its promise: it reads as owed everywhere but on the lost blocks, and its
      medium is at rest everywhere but on the lost and the recent ones. */
  ghost predicate Serves(c: Codec, js: nat, d: Disk, p: Promise, ps: set<seq<Block>>, asleep: bool) {
    && Idle(c, js, d, p.home, ps, p.lost + p.recent, asleep)
    && Seen(js, View(d), ps)
    && SameHome(js, p.lost, View(d), p.home)
    && if asleep then JournalStill(js, d) else Clear(c, js, View(d), p.recent)
  }

  lemma SameJournalFound(c: Codec, js: nat, a: seq<Block>, b: seq<Block>)
    requires js + JOURNAL_BLOCKS <= |a| && |a| == |b| && forall l: nat :: InJournal(js, l) ==> a[l] == b[l]
    ensures Found(c, js, a).None? <==> Found(c, js, b).None?
  {
    if c.read(a[js]).Some? && |c.read(a[js]).value.homes| <= TXN_CAP {
      var n := |c.read(a[js]).value.homes|;
      assert a[js + 1..js + 1 + n] == b[js + 1..js + 1 + n];
    }
  }

  lemma StillView(js: nat, d: Disk)
    requires JournalStill(js, d) && js + JOURNAL_BLOCKS <= |d.medium|
    ensures forall l: nat :: InJournal(js, l) ==> View(d)[l] == d.medium[l]
  {
    forall l: nat | InJournal(js, l) ensures View(d)[l] == d.medium[l] { LandElsewhere(d.medium, d.cache, l); }
  }

  /** A barrier makes every recent block durable. */
  lemma BarrierSettles(c: Codec, js: nat, d: Disk, p: Promise, ps: set<seq<Block>>, asleep: bool)
    requires Serves(c, js, d, p, ps, asleep)
    ensures Idle(c, js, Disk(View(d), []), p.home, ps, p.lost, asleep)
  {
    if asleep {
      StillView(js, d);
      SameJournalFound(c, js, d.medium, View(d));
    } else {
      LandJournal(c, js, d.medium, d.cache, p.lost + p.recent);
    }
  }

  lemma ViewOfData(d: Disk, w: Write)
    ensures View(Exec(d, Store(w))) == Put(View(d), w)
  {
    assert (d.cache + [w])[..|d.cache|] == d.cache;
  }

  /** A write past the journal, to a block no record that could be replayed names, leaves the volume in service. */
  lemma DataServes(c: Codec, js: nat, d: Disk, p: Promise, ps: set<seq<Block>>, w: Write, asleep: bool)
    requires Serves(c, js, d, p, ps, asleep)
    requires w.lba < |d.medium| && !InJournal(js, w.lba) && (asleep || Clear(c, js, View(d), {w.lba}))
    ensures Serves(c, js, Exec(d, Store(w)), WithData(p, w), ps, asleep)
  {
    var s, q := Exec(d, Store(w)), WithData(p, w);
    ViewOfData(d, w);
    DataSeen(c, js, View(d), w, p.home, ps, p.lost);
    assert q.lost + q.recent == p.lost + p.recent + {w.lba};
    DataIdle(c, js, d, w, p.home, ps, p.lost + p.recent, asleep);
  }

  lemma DataSeen(c: Codec, js: nat, img: seq<Block>, w: Write, h: seq<Block>, ps: set<seq<Block>>, lost: set<nat>)
    requires Seen(js, img, ps) && w.lba < |img| && !InJournal(js, w.lba) && SameHome(js, lost, img, h)
    ensures Seen(js, Put(img, w), ps) && SameHome(js, lost - {w.lba}, Put(img, w), Put(h, w))
  {
    SeenElsewhere(js, img, Put(img, w), ps);
  }

  lemma DataCalm(c: Codec, js: nat, d: Disk, w: Write, h: seq<Block>, ps: set<seq<Block>>, free: set<nat>)
    requires Calm(c, js, d, h, ps, free) && w.lba < |d.medium| && !InJournal(js, w.lba)
    ensures Calm(c, js, Exec(d, Store(w)), Put(h, w), ps, free + {w.lba})
  {
    var s := Exec(d, Store(w));
    forall i | 0 <= i < |s.cache| ensures Harmless(c, js, s.cache[i], free + {w.lba}) {
      if i < |d.cache| {
        assert Harmless(c, js, d.cache[i], free);
      }
    }
  }

  lemma DataIdle(c: Codec, js: nat, d: Disk, w: Write, h: seq<Block>, ps: set<seq<Block>>, free: set<nat>, asleep: bool)
    requires Idle(c, js, d, h, ps, free, asleep) && w.lba < |d.medium| && !InJournal(js, w.lba)
    ensures Idle(c, js, Exec(d, Store(w)), Put(h, w), ps, free + {w.lba}, asleep)
  {
    DataCalm(c, js, d, w, h, ps, free);
  }

  /** What is owed once data is written: it at once, but past a cut only after the next barrier. */
  function WithData(p: Promise, w: Write): Promise {
    Promise(Put(p.home, w), p.recent + {w.lba}, p.lost - {w.lba})
  }

  // --- events ---

  /** What can happen to a volume: file data is written straight to its blocks, transactions commit, with a first
      and a last flush the drive may refuse, the power is cut at rest, inside a commit or inside a replay, the
      machine mounts again, and the cache is flushed on request. A cut names how many operations were issued
      before it and what the medium then held. */
  datatype Event =
    | Data(w: Write)
    | Commit(t: Txn, a: Answers)
    | Cut(img: seq<Block>)
    | CutInCommit(t: Txn, a: Answers, k: nat, img: seq<Block>)
    | Mount
    | CutInReplay(k: nat, img: seq<Block>)
    | Sync

  /** Serving with home on the medium, serving a commit its last flush held or a replay not yet flushed, or
      without power. */
  datatype Mode = Serving | Held | Replayed | Down

  /** `asleep`: the record on the medium is one a cut left over a payload that does not check. */
  datatype State = State(disk: Disk, mode: Mode, asleep: bool)

  /** How many operations a commit has issued once a flush has been honoured. */
  function Flushed(t: Txn, a: Answers): nat { if a.staged then |t| + 1 else |t| + 2 }

  /** The events that can follow a state. Data goes to blocks no live record names, unless it is asleep:
      `JournalMount.LiveRecordUndoesData` and `RecordOwnsItsBlocks` show what happens otherwise. After a replay
      the power holds until the next honoured flush, as `JournalMount.ReplayWindowExact` asks. */
  ghost predicate Possible(c: Codec, js: nat, ps: set<seq<Block>>, s: State, e: Event) {
    && js + JOURNAL_BLOCKS <= |s.disk.medium|
    && (s.mode.Down? <==> e.Mount? || e.CutInReplay?)
    && (e.Data? ==> && e.w.lba < |s.disk.medium| && !InJournal(js, e.w.lba)
                    && (s.asleep || Clear(c, js, View(s.disk), {e.w.lba})))
    && (e.Commit? ==> Ready(js, s.disk, e.t, ps) && e.a.recorded)
    && (e.Cut? ==> !s.mode.Replayed? && PowerCut(c, js, s.disk, e.img) && Seen(js, e.img, ps))
    && (e.CutInCommit? ==> CutsCommit(c, js, ps, s, e.t, e.a, e.k, e.img))
    && (e.CutInReplay? ==> CutsReplay(c, js, ps, s, e.k, e.img))
  }

  /** The power goes `k` operations into a commit. Before the first honoured flush it may go while a held
      transaction is in flight only where `JournalMount.StagingOverHeldExact` finds that harmless, and it wakes no
      sleeping record: `JournalMount.WakesExactly` says which staging could. */
  ghost predicate CutsCommit(c: Codec, js: nat, ps: set<seq<Block>>, s: State, t: Txn, a: Answers, k: nat,
      img: seq<Block>)
    requires js + JOURNAL_BLOCKS <= |s.disk.medium|
  {
    && Ready(js, s.disk, t, ps) && a.recorded && k <= |CommitOps(c, js, t, a)|
    && PowerCut(c, js, Run(s.disk, CommitOps(c, js, t, a)[..k]), img) && Seen(js, img, ps)
    && (s.mode.Replayed? ==> k >= Flushed(t, a))
    && (s.mode.Held? && k < Flushed(t, a) ==>
          && k <= |t| && WholeSectors(Run(s.disk, CommitOps(c, js, t, a)[..k]), img)
          && Found(c, js, s.disk.medium).Some? && HeldSafe(s.disk.medium, Found(c, js, s.disk.medium).value, t, k))
    && (s.asleep && !Survives(c, js, t, a, k, img) ==> Found(c, js, img).None?)
  }

  /** The power goes `k` operations into a replay, before the record is invalidated. */
  ghost predicate CutsReplay(c: Codec, js: nat, ps: set<seq<Block>>, s: State, k: nat, img: seq<Block>)
    requires js + JOURNAL_BLOCKS <= |s.disk.medium|
  {
    && Found(c, js, s.disk.medium).Some? && k <= |Found(c, js, s.disk.medium).value|
    && PowerCut(c, js, Run(s.disk, ReplayOps(c, js, s.disk.medium)[..k]), img) && Seen(js, img, ps)
  }

  function Next(c: Codec, js: nat, s: State, e: Event): State
    requires js + JOURNAL_BLOCKS <= |s.disk.medium|
  {
    match e
    case Data(w) => s.(disk := Exec(s.disk, Store(w)))
    case Commit(t, a) => State(Run(s.disk, CommitOps(c, js, t, a)), if a.home then Serving else Held, false)
    case Cut(img) => State(Disk(img, []), Down, s.asleep)
    case CutInCommit(t, a, k, img) =>
      State(Disk(img, []), Down,
            !Survives(c, js, t, a, k, img) && (s.asleep || FallsAsleep(c, js, t, a, k, img)))
    case Mount =>
      State(Run(s.disk, ReplayOps(c, js, s.disk.medium)),
            if Found(c, js, s.disk.medium).Some? then Replayed else Serving, s.asleep)
    case CutInReplay(_, img) => State(Disk(img, []), Down, s.asleep)
    case Sync => State(Exec(s.disk, Barrier), Serving, s.asleep)
  }

  /** What a user is owed after an event. A cut before a flush was honoured loses the recent blocks until they
      are written again, even where the transaction itself survives. */
  function Owed(c: Codec, js: nat, e: Event, p: Promise): Promise {
    match e
    case Data(w) => WithData(p, w)
    case Commit(t, _) => Promise(Land(p.home, t), {}, p.lost - HomeSet(t))
    case Cut(_) => Promise(p.home, {}, p.lost + p.recent)
    case CutInCommit(t, a, k, img) =>
      var lost := if k < Flushed(t, a) then p.lost + p.recent else p.lost;
      if Survives(c, js, t, a, k, img) then Promise(Land(p.home, t), {}, lost - HomeSet(t))
      else Promise(p.home, {}, lost)
    case Sync => Promise(p.home, {}, p.lost)
    case _ => p
  }

  /** A held commit: its record is live, and a barrier would bring it home. */
  ghost predicate Holds(c: Codec, js: nat, d: Disk, p: Promise, ps: set<seq<Block>>) {
    && Quiet(c, js, Disk(View(d), []), p.home, ps, p.lost)
    && exists h0, t :: HeldAs(c, js, d, p, ps, h0, t)
  }

  ghost predicate HeldAs(c: Codec, js: nat, d: Disk, p: Promise, ps: set<seq<Block>>, h0: seq<Block>, t: Txn) {
    && Committed(c, js, d, h0, t, ps, p.lost + p.recent)
    && SameHome(js, p.lost + p.recent, Land(h0, t), p.home)
    && HomeSet(t) !! p.lost + p.recent
  }

  /** The state keeps the promise. */
  ghost predicate Keeps(c: Codec, js: nat, ps: set<seq<Block>>, s: State, p: Promise) {
    p.recent !! p.lost &&
    match s.mode
    case Serving => Serves(c, js, s.disk, p, ps, s.asleep)
    case Held => !s.asleep && Holds(c, js, s.disk, p, ps)
    case Replayed => !s.asleep && Quiet(c, js, Disk(View(s.disk), []), p.home, ps, p.lost)
    case Down => p.recent == {} && Recoverable(c, js, s.disk, p.home, ps, p.lost, s.asleep)
  }

  // --- commits ---

  /** From the first barrier on, a commit runs as if the cache had been flushed before it. */
  lemma FirstBarrier(c: Codec, js: nat, d: Disk, t: Txn, k: nat)
    requires |t| < k <= 2 * |t| + 5
    ensures Run(d, FullOps(c, js, t)[..k]) == Run(Disk(View(d), []), FullOps(c, js, t)[..k])
  {
    var ops := FullOps(c, js, t);
    var stage, ws := StageOps(js, t), StageWrites(js, t);
    var rest := ops[|t| + 1..k];
    CommitSplit(c, js, t);
    assert ops[..k] == ops[..|t| + 1] + rest;
    RunConcat(d, stage + [Barrier], rest);
    RunConcat(Disk(View(d), []), stage + [Barrier], rest);
    RunConcat(d, stage, [Barrier]);
    RunConcat(Disk(View(d), []), stage, [Barrier]);
    RunOne(Run(d, stage), Barrier);
    RunOne(Run(Disk(View(d), []), stage), Barrier);
    RunStores(d, ws);
    RunStores(Disk(View(d), []), ws);
    assert [] + ws == ws;
    LandConcat(d.medium, d.cache, ws);
  }

  /** From its first honoured flush on, so does one with refusals. */
  lemma AnsweredBarrier(c: Codec, js: nat, d: Disk, t: Txn, a: Answers, k: nat)
    requires a.recorded && Flushed(t, a) <= k <= |CommitOps(c, js, t, a)|
    ensures Run(d, CommitOps(c, js, t, a)[..k]) == Run(Disk(View(d), []), CommitOps(c, js, t, a)[..k])
  {
    RunAnswered(c, js, d, t, a, k);
    RunAnswered(c, js, Disk(View(d), []), t, a, k);
    FirstBarrier(c, js, d, t, Full(t, a, k));
  }

  /** A volume in service, flushed or not, is a disk at rest as far as a commit past its first honoured flush goes. */
  lemma ServingCommit(c: Codec, js: nat, ps: set<seq<Block>>, s: State, p: Promise, t: Txn, a: Answers, k: nat)
    requires Keeps(c, js, ps, s, p) && !s.mode.Down? && Ready(js, s.disk, t, ps)
    requires a.recorded && Flushed(t, a) <= k <= |CommitOps(c, js, t, a)|
    ensures Idle(c, js, Disk(View(s.disk), []), p.home, ps, p.lost, s.asleep)
    ensures Ready(js, Disk(View(s.disk), []), t, ps)
    ensures Run(s.disk, CommitOps(c, js, t, a)[..k]) == Run(Disk(View(s.disk), []), CommitOps(c, js, t, a)[..k])
  {
    if s.mode.Serving? { BarrierSettles(c, js, s.disk, p, ps, s.asleep); }
    AnsweredBarrier(c, js, s.disk, t, a, k);
  }

  /** With no recent blocks a quiet disk is in service. */
  lemma QuietServes(c: Codec, js: nat, d: Disk, h: seq<Block>, ps: set<seq<Block>>, lost: set<nat>)
    requires Quiet(c, js, d, h, ps, lost) && Seen(js, View(d), ps)
    ensures Serves(c, js, d, Promise(h, {}, lost), ps, false)
  {
    assert lost + {} == lost;
    LandJournal(c, js, d.medium, d.cache, lost);
  }

  lemma FlushedServes(c: Codec, js: nat, img: seq<Block>, h: seq<Block>, ps: set<seq<Block>>, lost: set<nat>,
      asleep: bool)
    requires Idle(c, js, Disk(img, []), h, ps, lost, asleep)
    ensures Serves(c, js, Disk(img, []), Promise(h, {}, lost), ps, asleep)
  {
    assert lost + {} == lost;
  }

  lemma WholeAnswered(c: Codec, js: nat, d: Disk, t: Txn, a: Answers)
    requires a.recorded
    ensures Flushed(t, a) <= |CommitOps(c, js, t, a)|
    ensures Run(d, CommitOps(c, js, t, a)) == Run(d, FullOps(c, js, t)[..if a.home then 2 * |t| + 5 else 2 * |t| + 3])
  {
    var ops := CommitOps(c, js, t, a);
    assert ops[..|ops|] == ops;
    RunAnswered(c, js, d, t, a, |ops|);
  }

  /** A disk at rest after a whole commit. */
  lemma CommitServes(c: Codec, js: nat, d: Disk, h: seq<Block>, t: Txn, ps: set<seq<Block>>, lost: set<nat>)
    requires Lawful(c) && Discriminates(c, ps) && Calm(c, js, d, h, ps, lost) && Ready(js, d, t, ps)
    ensures Serves(c, js, Run(d, FullOps(c, js, t)), Promise(Land(h, t), {}, lost - HomeSet(t)), ps, false)
  {
    PhaseDone(c, js, d, h, t, ps, lost);
    QuietServes(c, js, Run(d, FullOps(c, js, t)), Land(h, t), ps, lost - HomeSet(t));
  }

  lemma CommitHolds(c: Codec, js: nat, d: Disk, h: seq<Block>, t: Txn, ps: set<seq<Block>>, lost: set<nat>)
    requires Lawful(c) && Discriminates(c, ps) && Calm(c, js, d, h, ps, lost) && Ready(js, d, t, ps)
    ensures Holds(c, js, Run(d, FullOps(c, js, t)[..2 * |t| + 3]), Promise(Land(h, t), {}, lost - HomeSet(t)), ps)
  {
    var p := Promise(Land(h, t), {}, lost - HomeSet(t));
    PhaseRecorded(c, js, d, h, t, ps, lost);
    PhaseCommitted(c, js, d, h, t, ps, |t|, lost);
    assert t[..|t|] == t && p.lost + p.recent == p.lost;
    Checkpointed(c, js, Run(d, FullOps(c, js, t)[..|t| + 3]), h, t, ps, p.lost);
    assert HeldAs(c, js, Run(d, FullOps(c, js, t)[..2 * |t| + 3]), p, ps, h, t);
  }

  lemma StepCommit(c: Codec, js: nat, ps: set<seq<Block>>, s: State, p: Promise, t: Txn, a: Answers)
    requires Lawful(c) && Discriminates(c, ps) && Keeps(c, js, ps, s, p) && Possible(c, js, ps, s, Commit(t, a))
    ensures Keeps(c, js, ps, Next(c, js, s, Commit(t, a)), Owed(c, js, Commit(t, a), p))
  {
    var q, ops := Disk(View(s.disk), []), CommitOps(c, js, t, a);
    WholeAnswered(c, js, q, t, a);
    ServingCommit(c, js, ps, s, p, t, a, |ops|);
    assert ops[..|ops|] == ops;
    WholeCommit(c, js, t);
    if a.home {
      CommitServes(c, js, q, p.home, t, ps, p.lost);
    } else {
      CommitHolds(c, js, q, p.home, t, ps, p.lost);
    }
  }

  // --- cuts ---

  /** An image that recovers to one home recovers to any that looks the same. */
  lemma RecoverableCongruent(c: Codec, js: nat, d: Disk, h: seq<Block>, h': seq<Block>, ps: set<seq<Block>>,
      free: set<nat>)
    requires Recoverable(c, js, d, h, ps, free, false) && SameHome(js, free, h, h')
    ensures Recoverable(c, js, d, h', ps, free, false)
  {
    if Quiet(c, js, d, h, ps, free) {
      QuietCongruent(c, js, d, h, h', ps, free);
    } else {
      var h0, t :| Committed(c, js, d, h0, t, ps, free) && SameHome(js, free, Land(h0, t), h);
      assert SameHome(js, free, Land(h0, t), h');
    }
  }

  /** The power goes while a held commit is still in the cache. */
  lemma StepCutHeld(c: Codec, js: nat, ps: set<seq<Block>>, s: State, p: Promise, img: seq<Block>)
    requires Lawful(c) && Keeps(c, js, ps, s, p) && s.mode.Held? && Possible(c, js, ps, s, Cut(img))
    ensures Keeps(c, js, ps, Next(c, js, s, Cut(img)), Owed(c, js, Cut(img), p))
  {
    var h0, t :| HeldAs(c, js, s.disk, p, ps, h0, t);
    CommittedSurvives(c, js, s.disk, h0, t, ps, img, p.lost + p.recent);
  }

  lemma StepCut(c: Codec, js: nat, ps: set<seq<Block>>, s: State, p: Promise, img: seq<Block>)
    requires Lawful(c) && Keeps(c, js, ps, s, p) && Possible(c, js, ps, s, Cut(img))
    ensures Keeps(c, js, ps, Next(c, js, s, Cut(img)), Owed(c, js, Cut(img), p))
  {
    if s.mode.Held? {
      StepCutHeld(c, js, ps, s, p, img);
    } else if s.asleep {
      CalmSurvives(c, js, s.disk, p.home, ps, img, p.lost + p.recent);
      SameJournalFound(c, js, s.disk.medium, img);
    } else {
      QuietSurvives(c, js, s.disk, p.home, ps, img, p.lost + p.recent);
    }
  }

  lemma RunEarly(c: Codec, js: nat, d: Disk, u: Txn, a: Answers, k: nat)
    requires a.recorded && k <= |u| && k <= |CommitOps(c, js, u, a)|
    ensures Run(d, CommitOps(c, js, u, a)[..k]) == Disk(d.medium, d.cache + StageWrites(js, u)[..k])
  {
    AnsweredStaged(c, js, u, a, k);
    CommitSplit(c, js, u);
    RunStaging(c, js, d, u, k);
  }

  /** The power goes while the next transaction is being staged over a held one, where that is harmless. */
  lemma StepCutOverHeld(c: Codec, js: nat, ps: set<seq<Block>>, s: State, p: Promise, u: Txn, a: Answers, k: nat,
      img: seq<Block>)
    requires Lawful(c) && Discriminates(c, ps) && Keeps(c, js, ps, s, p) && s.mode.Held?
    requires Possible(c, js, ps, s, CutInCommit(u, a, k, img)) && k < Flushed(u, a)
    ensures Keeps(c, js, ps, Next(c, js, s, CutInCommit(u, a, k, img)), Owed(c, js, CutInCommit(u, a, k, img), p))
  {
    var h0, t :| HeldAs(c, js, s.disk, p, ps, h0, t);
    var free := p.lost + p.recent;
    FoundPayload(c, js, s.disk.medium, t);
    RunEarly(c, js, s.disk, u, a, k);
    HeldHarmless(c, js, s.disk, h0, t, ps, free, u, k, img);
    RecoverableCongruent(c, js, Disk(img, []), Land(h0, t), p.home, ps, free);
  }

  lemma StepCutInCommit(c: Codec, js: nat, ps: set<seq<Block>>, s: State, p: Promise, t: Txn, a: Answers, k: nat,
      img: seq<Block>)
    requires Lawful(c) && Discriminates(c, ps)
    requires Keeps(c, js, ps, s, p) && Possible(c, js, ps, s, CutInCommit(t, a, k, img))
    ensures Keeps(c, js, ps, Next(c, js, s, CutInCommit(t, a, k, img)), Owed(c, js, CutInCommit(t, a, k, img), p))
  {
    if k >= Flushed(t, a) {
      ServingCommit(c, js, ps, s, p, t, a, k);
      CommitIsAtomic(c, js, Disk(View(s.disk), []), p.home, t, ps, a, k, img, p.lost, s.asleep);
    } else if s.mode.Held? {
      StepCutOverHeld(c, js, ps, s, p, t, a, k, img);
    } else {
      CommitIsAtomic(c, js, s.disk, p.home, t, ps, a, k, img, p.lost + p.recent, s.asleep);
    }
  }

  // --- mounts ---

  lemma QuietCongruent(c: Codec, js: nat, d: Disk, h: seq<Block>, h': seq<Block>, ps: set<seq<Block>>, free: set<nat>)
    requires Quiet(c, js, d, h, ps, free) && SameHome(js, free, h, h')
    ensures Quiet(c, js, d, h', ps, free)
  {
  }

  lemma FoundIsOk(c: Codec, js: nat, d: Disk, h: seq<Block>, ps: set<seq<Block>>, free: set<nat>)
    requires Quiet(c, js, d, h, ps, free) && Found(c, js, d.medium).Some?
    ensures var t := Found(c, js, d.medium).value;
            && TxnOk(js, |h|, t) && Blocks(t) == d.medium[js + 1..js + 1 + |t|]
            && c.read(d.medium[js]) == Some(RecordOf(c, t))
  {
    var t, rec := Found(c, js, d.medium).value, c.read(d.medium[js]).value;
    var part := d.medium[js + 1..js + 1 + |t|];
    forall i | 0 <= i < |t| ensures Homes(t)[i] == rec.homes[i] && Blocks(t)[i] == part[i] {
      assert t[i] == Write(rec.homes[i], d.medium[js + 1 + i]);
      assert part[i] == d.medium[js + 1 + i];
    }
    assert Homes(t) == rec.homes && Blocks(t) == part;
    forall i, j | 0 <= i < j < |t| ensures t[i].lba != t[j].lba {
      assert Homes(t)[i] != Homes(t)[j];
    }
  }

  /** A quiet image with a live record is a committed one whose transaction is already home. */
  lemma QuietIsCommitted(c: Codec, js: nat, d: Disk, h: seq<Block>, ps: set<seq<Block>>, free: set<nat>)
    requires Quiet(c, js, d, h, ps, free) && d.cache == [] && Found(c, js, d.medium).Some?
    ensures Committed(c, js, d, h, Found(c, js, d.medium).value, ps, free)
    ensures SameHome(js, free, Land(h, Found(c, js, d.medium).value), h)
  {
    FoundIsOk(c, js, d, h, ps, free);
    QuietReplay(c, js, d.medium, h, ps, free);
    LandNothing(js, h, Found(c, js, d.medium).value, h, free);
  }

  /** A state without power: nothing to replay and at rest, or committed. */
  lemma DownCases(c: Codec, js: nat, d: Disk, h: seq<Block>, ps: set<seq<Block>>, free: set<nat>, asleep: bool)
    returns (h0: seq<Block>)
    requires Lawful(c) && js + JOURNAL_BLOCKS <= |d.medium| && Recoverable(c, js, d, h, ps, free, asleep)
    ensures Found(c, js, d.medium).None? ==> Idle(c, js, d, h, ps, free, asleep)
    ensures Found(c, js, d.medium).Some? ==>
              var t := Found(c, js, d.medium).value;
              !asleep && Committed(c, js, d, h0, t, ps, free) && SameHome(js, free, Land(h0, t), h)
  {
    h0 := h;
    if Idle(c, js, d, h, ps, free, asleep) {
      if Found(c, js, d.medium).Some? { QuietIsCommitted(c, js, d, h, ps, free); }
    } else {
      var g, t :| Committed(c, js, d, g, t, ps, free) && SameHome(js, free, Land(g, t), h);
      h0 := g;
      assert PowerCut(c, js, d, d.medium);
      CommittedSurvives(c, js, d, g, t, ps, d.medium, free);
    }
  }

  lemma StepMount(c: Codec, js: nat, ps: set<seq<Block>>, s: State, p: Promise)
    requires Lawful(c) && Discriminates(c, ps)
    requires Keeps(c, js, ps, s, p) && Possible(c, js, ps, s, Mount)
    ensures Keeps(c, js, ps, Next(c, js, s, Mount), p)
  {
    var h0 := DownCases(c, js, s.disk, p.home, ps, p.lost, s.asleep);
    if Found(c, js, s.disk.medium).Some? {
      var t := Found(c, js, s.disk.medium).value;
      ReplaySettles(c, js, s.disk, h0, t, ps, p.lost);
      QuietCongruent(c, js, Exec(Run(s.disk, ReplayOps(c, js, s.disk.medium)), Barrier), Land(h0, t), p.home, ps,
          p.lost);
    } else {
      FlushedServes(c, js, s.disk.medium, p.home, ps, p.lost, s.asleep);
    }
  }

  lemma StepCutInReplay(c: Codec, js: nat, ps: set<seq<Block>>, s: State, p: Promise, k: nat, img: seq<Block>)
    requires Lawful(c) && Keeps(c, js, ps, s, p) && Possible(c, js, ps, s, CutInReplay(k, img))
    ensures Keeps(c, js, ps, Next(c, js, s, CutInReplay(k, img)), p)
  {
    var h0 := DownCases(c, js, s.disk, p.home, ps, p.lost, s.asleep);
    ReplayIsRestartable(c, js, s.disk, h0, Found(c, js, s.disk.medium).value, ps, k, img, p.lost);
  }

  // --- data and flushes ---

  lemma DataOverView(c: Codec, js: nat, d: Disk, p: Promise, ps: set<seq<Block>>, w: Write)
    requires Quiet(c, js, Disk(View(d), []), p.home, ps, p.lost)
    requires w.lba < |d.medium| && !InJournal(js, w.lba) && Clear(c, js, View(d), {w.lba})
    ensures Quiet(c, js, Disk(View(Exec(d, Store(w))), []), Put(p.home, w), ps, p.lost - {w.lba})
  {
    ViewOfData(d, w);
    SeenElsewhere(js, View(d), Put(View(d), w), ps);
  }

  /** The record of a held commit is what its volume reads. */
  lemma HeldRecord(c: Codec, js: nat, d: Disk, h0: seq<Block>, t: Txn, ps: set<seq<Block>>, free: set<nat>)
    requires Committed(c, js, d, h0, t, ps, free)
    ensures View(d)[js] == d.medium[js]
  {
    forall i | 0 <= i < |d.cache| ensures d.cache[i].lba != js {
      if d.cache[i] in t { assert exists k :: 0 <= k < |t| && t[k] == d.cache[i]; }
    }
    LandElsewhere(d.medium, d.cache, js);
  }

  lemma DataHolds(c: Codec, js: nat, d: Disk, p: Promise, ps: set<seq<Block>>, w: Write)
    requires Holds(c, js, d, p, ps) && w.lba < |d.medium| && !InJournal(js, w.lba) && Clear(c, js, View(d), {w.lba})
    ensures Holds(c, js, Exec(d, Store(w)), WithData(p, w), ps)
  {
    var h0, t :| HeldAs(c, js, d, p, ps, h0, t);
    DataOverView(c, js, d, p, ps, w);
    HeldRecord(c, js, d, h0, t, ps, p.lost + p.recent);
    DataHeldAs(c, js, d, p, ps, w, h0, t);
  }

  lemma DataHeldAs(c: Codec, js: nat, d: Disk, p: Promise, ps: set<seq<Block>>, w: Write, h0: seq<Block>, t: Txn)
    requires HeldAs(c, js, d, p, ps, h0, t) && w.lba < |d.medium| && !InJournal(js, w.lba)
    requires Clear(c, js, d.medium, {w.lba})
    ensures HeldAs(c, js, Exec(d, Store(w)), WithData(p, w), ps, h0, t)
  {
    var q := WithData(p, w);
    assert q.lost + q.recent == p.lost + p.recent + {w.lba};
    forall i | 0 <= i < |t| ensures t[i].lba != w.lba { assert Homes(t)[i] == t[i].lba; }
  }

  lemma StepData(c: Codec, js: nat, ps: set<seq<Block>>, s: State, p: Promise, w: Write)
    requires Keeps(c, js, ps, s, p) && Possible(c, js, ps, s, Data(w))
    ensures Keeps(c, js, ps, Next(c, js, s, Data(w)), Owed(c, js, Data(w), p))
  {
    match s.mode
    case Serving => DataServes(c, js, s.disk, p, ps, w, s.asleep);
    case Held => DataHolds(c, js, s.disk, p, ps, w);
    case Replayed => DataOverView(c, js, s.disk, p, ps, w);
  }

  lemma StepSync(c: Codec, js: nat, ps: set<seq<Block>>, s: State, p: Promise)
    requires Keeps(c, js, ps, s, p) && Possible(c, js, ps, s, Sync)
    ensures Keeps(c, js, ps, Next(c, js, s, Sync), Owed(c, js, Sync, p))
  {
    if s.mode.Serving? { BarrierSettles(c, js, s.disk, p, ps, s.asleep); }
    FlushedServes(c, js, View(s.disk), p.home, ps, p.lost, s.asleep);
  }

  // --- histories ---

  /** Every event keeps the promise, with the promise moved as owed. */
  lemma StepKeeps(c: Codec, js: nat, ps: set<seq<Block>>, s: State, p: Promise, e: Event)
    requires Lawful(c) && Discriminates(c, ps)
    requires Keeps(c, js, ps, s, p) && Possible(c, js, ps, s, e)
    ensures Keeps(c, js, ps, Next(c, js, s, e), Owed(c, js, e, p))
  {
    match e
    case Data(w) => StepData(c, js, ps, s, p, w);
    case Commit(t, a) => StepCommit(c, js, ps, s, p, t, a);
    case Cut(img) => StepCut(c, js, ps, s, p, img);
    case CutInCommit(t, a, k, img) => StepCutInCommit(c, js, ps, s, p, t, a, k, img);
    case Mount => StepMount(c, js, ps, s, p);
    case CutInReplay(k, img) => StepCutInReplay(c, js, ps, s, p, k, img);
    case Sync => StepSync(c, js, ps, s, p);
  }

  function After(c: Codec, js: nat, s: State, es: seq<Event>): State {
    if es == [] then s
    else var p := After(c, js, s, es[..|es| - 1]);
      if js + JOURNAL_BLOCKS <= |p.disk.medium| then Next(c, js, p, es[|es| - 1]) else p
  }

  function OwedAfter(c: Codec, js: nat, es: seq<Event>, p: Promise): Promise {
    if es == [] then p else Owed(c, js, es[|es| - 1], OwedAfter(c, js, es[..|es| - 1], p))
  }

  /** A history: each event possible where it happens. */
  ghost predicate History(c: Codec, js: nat, ps: set<seq<Block>>, s: State, es: seq<Event>) {
    es == [] ||
    (History(c, js, ps, s, es[..|es| - 1])
     && Possible(c, js, ps, After(c, js, s, es[..|es| - 1]), es[|es| - 1]))
  }

  lemma {:induction false} HistoryKeeps(c: Codec, js: nat, ps: set<seq<Block>>, s: State, p: Promise, es: seq<Event>)
    requires Lawful(c) && Discriminates(c, ps)
    requires Keeps(c, js, ps, s, p) && History(c, js, ps, s, es)
    ensures Keeps(c, js, ps, After(c, js, s, es), OwedAfter(c, js, es, p))
  {
    if es != [] {
      var init := es[..|es| - 1];
      HistoryKeeps(c, js, ps, s, p, init);
      StepKeeps(c, js, ps, After(c, js, s, init), OwedAfter(c, js, init, p), es[|es| - 1]);
    }
  }

  /** Over every history of data writes, commits, power cuts, interrupted replays and mounts, the home a
      running volume reads, and the home a mount would serve after a cut, is the one left by the data
      written and by exactly the transactions that survived, each applied whole: all that committed, all
      that were cut after their second barrier, none that were cut before their record was written. Only
      the blocks whose data was in flight at a cut, and not written since, may hold something else. */
  lemma JournalIsCrashSafe(c: Codec, js: nat, ps: set<seq<Block>>, s: State, p: Promise, es: seq<Event>)
    requires Lawful(c) && Discriminates(c, ps)
    requires s.mode.Serving? && p.recent !! p.lost && Serves(c, js, s.disk, p, ps, s.asleep)
    requires History(c, js, ps, s, es)
    ensures var end := After(c, js, s, es); var owed := OwedAfter(c, js, es, p);
            && (!end.mode.Down? ==> SameHome(js, owed.lost, View(end.disk), owed.home))
            && (end.mode.Down? ==> js + JOURNAL_BLOCKS <= |end.disk.medium|
                                   && SameHome(js, owed.lost, Recovered(c, js, end.disk.medium), owed.home))
  {
    HistoryKeeps(c, js, ps, s, p, es);
    var end := After(c, js, s, es);
    var owed := OwedAfter(c, js, es, p);
    if end.mode.Down? {
      var h0 := DownCases(c, js, end.disk, owed.home, ps, owed.lost, end.asleep);
      if Found(c, js, end.disk.medium).Some? {
        assert PowerCut(c, js, end.disk, end.disk.medium);
        CommittedSurvives(c, js, end.disk, h0, Found(c, js, end.disk.medium).value, ps, end.disk.medium, owed.lost);
      }
    }
  }

  // --- data is on the medium before the transaction that names it ---

  lemma {:induction false} RunElsewhere(d: Disk, ops: seq<Op>, l: nat)
    requires l < |d.medium| && !Pending(d, l)
    requires forall i :: 0 <= i < |ops| && ops[i].Store? ==> ops[i].write.lba != l
    ensures var s := Run(d, ops); |s.medium| == |d.medium| && !Pending(s, l) && s.medium[l] == d.medium[l]
  {
    if ops != [] {
      var init := ops[..|ops| - 1];
      RunElsewhere(d, init, l);
      var s := Run(d, init);
      if ops[|ops| - 1].Barrier? { LandElsewhere(s.medium, s.cache, l); }
    }
  }

  /** What a commit issues from its first barrier on, up to a cut after `k` operations. */
  function LaterOps(c: Codec, js: nat, t: Txn, k: nat): seq<Op>
    requires |t| < k <= 2 * |t| + 5
  {
    FullOps(c, js, t)[|t| + 1..k]
  }

  /** Past its first barrier a commit only touches the journal and its own blocks. */
  lemma LaterOpsTouch(c: Codec, js: nat, t: Txn, k: nat, l: nat)
    requires |t| < k <= 2 * |t| + 5 && !InJournal(js, l) && l !in HomeSet(t)
    ensures var rest := LaterOps(c, js, t, k);
            forall i :: 0 <= i < |rest| && rest[i].Store? ==> rest[i].write.lba != l
  {
    var rest := LaterOps(c, js, t, k);
    forall i | 0 <= i < |rest| && rest[i].Store?
      ensures rest[i].write.lba != l
    {
      if 2 <= i < |t| + 2 {
        assert rest[i] == HomeOps(t)[i - 2];
        assert t[i - 2].lba in HomeSet(t);
      }
    }
  }

  lemma RunLater(c: Codec, js: nat, d: Disk, t: Txn, k: nat)
    requires |t| < k <= 2 * |t| + 5
    ensures Run(d, FullOps(c, js, t)[..k]) ==
            Run(Disk(Land(View(d), StageWrites(js, t)), []), LaterOps(c, js, t, k))
  {
    var first := StageOps(js, t) + [Barrier];
    RunStaged(js, d, t);
    assert FullOps(c, js, t)[..k] == first + LaterOps(c, js, t, k);
    RunConcat(d, first, LaterOps(c, js, t, k));
  }

  /** Two images hold the same block. */
  predicate AgreeAt(a: seq<Block>, b: seq<Block>, l: nat) { l < |a| && l < |b| && a[l] == b[l] }

  lemma FullLandsData(c: Codec, js: nat, d: Disk, t: Txn, k: nat, img: seq<Block>, l: nat)
    requires |t| <= TXN_CAP && |t| < k <= 2 * |t| + 5 && PowerCut(c, js, Run(d, FullOps(c, js, t)[..k]), img)
    requires l < |d.medium| && !InJournal(js, l) && l !in HomeSet(t)
    ensures AgreeAt(img, View(d), l)
  {
    RunLater(c, js, d, t, k);
    LaterOpsTouch(c, js, t, k, l);
    CutElsewhere(c, js, Disk(Land(View(d), StageWrites(js, t)), []), LaterOps(c, js, t, k), img, l);
    StagingElsewhere(js, View(d), t, l);
  }

  /** Once a flush of a commit has been honoured, every write acknowledged before the commit began is on the
      medium, whatever the cut does to the rest. */
  lemma BarrierLandsData(c: Codec, js: nat, d: Disk, t: Txn, a: Answers, k: nat, img: seq<Block>, l: nat)
    requires |t| <= TXN_CAP && a.recorded && Flushed(t, a) <= k <= |CommitOps(c, js, t, a)|
    requires PowerCut(c, js, Run(d, CommitOps(c, js, t, a)[..k]), img)
    requires l < |d.medium| && !InJournal(js, l) && l !in HomeSet(t)
    ensures AgreeAt(img, View(d), l)
  {
    RunAnswered(c, js, d, t, a, k);
    FullLandsData(c, js, d, t, Full(t, a, k), img, l);
  }

  /** A cut after operations that never touch a block finds it as it was. */
  lemma CutElsewhere(c: Codec, js: nat, d: Disk, ops: seq<Op>, img: seq<Block>, l: nat)
    requires PowerCut(c, js, Run(d, ops), img) && l < |d.medium| && !Pending(d, l)
    requires forall i :: 0 <= i < |ops| && ops[i].Store? ==> ops[i].write.lba != l
    ensures AgreeAt(img, d.medium, l)
  {
    RunElsewhere(d, ops, l);
  }

  lemma StagingElsewhere(js: nat, img: seq<Block>, t: Txn, l: nat)
    requires |t| <= TXN_CAP && l < |img| && !InJournal(js, l)
    ensures AgreeAt(Land(img, StageWrites(js, t)), img, l)
  {
    LandElsewhere(img, StageWrites(js, t), l);
  }

  /** The ordered-data promise: when a transaction survives a cut past its first honoured flush, all data written
      before that is on the medium, so it names no block its data never reached. A drive that honours the first
      flush keeps it for every transaction that survives. */
  lemma DataIsOrdered(c: Codec, js: nat, ps: set<seq<Block>>, s: State, p: Promise, es: seq<Event>,
                      t: Txn, a: Answers, k: nat, img: seq<Block>)
    requires Lawful(c) && Discriminates(c, ps)
    requires s.mode.Serving? && p.recent !! p.lost && Serves(c, js, s.disk, p, ps, s.asleep)
    requires History(c, js, ps, s, es) && Possible(c, js, ps, After(c, js, s, es), CutInCommit(t, a, k, img))
    ensures a.staged && Survives(c, js, t, a, k, img) ==> Flushed(t, a) <= k
    ensures Flushed(t, a) <= k ==>
              forall l :: l in OwedAfter(c, js, es, p).recent && l !in HomeSet(t) && l < |img| && !InJournal(js, l) ==>
                AgreeAt(img, OwedAfter(c, js, es, p).home, l)
  {
    HistoryKeeps(c, js, ps, s, p, es);
    if Flushed(t, a) <= k {
      forall l | l in OwedAfter(c, js, es, p).recent && l !in HomeSet(t) && l < |img| && !InJournal(js, l)
        ensures AgreeAt(img, OwedAfter(c, js, es, p).home, l)
      {
        FlushedData(c, js, ps, After(c, js, s, es), OwedAfter(c, js, es, p), t, a, k, img, l);
      }
    }
  }

  lemma FlushedData(c: Codec, js: nat, ps: set<seq<Block>>, s: State, p: Promise, t: Txn, a: Answers, k: nat,
                    img: seq<Block>, l: nat)
    requires Keeps(c, js, ps, s, p) && Possible(c, js, ps, s, CutInCommit(t, a, k, img)) && Flushed(t, a) <= k
    requires l in p.recent && l !in HomeSet(t) && l < |img| && !InJournal(js, l)
    ensures AgreeAt(img, p.home, l)
  {
    RunSize(s.disk, CommitOps(c, js, t, a)[..k]);
    RecentIsSeen(c, js, ps, s, p, l);
    BarrierLandsData(c, js, s.disk, t, a, k, img, l);
  }

  /** A volume reads back the data just written. */
  lemma RecentIsSeen(c: Codec, js: nat, ps: set<seq<Block>>, s: State, p: Promise, l: nat)
    requires Keeps(c, js, ps, s, p) && !s.mode.Down? && l in p.recent && l < |s.disk.medium| && !InJournal(js, l)
    ensures AgreeAt(View(s.disk), p.home, l)
  {
  }

  /** With the first flush refused the promise is off: staged blocks and record can land ahead of the data, and the
      transaction then survives over a block that still holds what it held before. */
  lemma UnorderedDataIsLost(c: Codec, js: nat, d: Disk, t: Txn, a: Answers, l: nat) returns (img: seq<Block>)
    requires Lawful(c) && js + JOURNAL_BLOCKS <= |d.medium| && TxnOk(js, |d.medium|, t) && !a.staged
    requires l < |d.medium| && !InJournal(js, l)
    ensures |t| + 1 <= |CommitOps(c, js, t, a)| && PowerCut(c, js, Run(d, CommitOps(c, js, t, a)[..|t| + 1]), img)
    ensures Survives(c, js, t, a, |t| + 1, img) && AgreeAt(img, d.medium, l)
  {
    var staged := Land(d.medium, StageWrites(js, t));
    img := staged[js := c.write(RecordOf(c, t))];
    OpsTogether(c, js, t, a);
    RecordAheadIsCut(c, js, d, t, img);
    StagingElsewhere(js, d.medium, t, l);
    PayloadLands(js, d.medium, t);
    assert img[js + 1..js + 1 + |t|] == staged[js + 1..js + 1 + |t|];
    RecordReads(c, js, |d.medium|, t);
    FoundPayload(c, js, img, t);
  }

  /** Of everything in flight just the staged blocks and the record land. */
  lemma RecordAheadIsCut(c: Codec, js: nat, d: Disk, t: Txn, img: seq<Block>)
    requires js < |d.medium| && img == Land(d.medium, StageWrites(js, t))[js := c.write(RecordOf(c, t))]
    ensures PowerCut(c, js, Run(d, StageOps(js, t) + [RecordStore(c, js, t)]), img)
  {
    RunTogether(c, js, d, t);
    var ws := StageWrites(js, t);
    var s := Disk(d.medium, d.cache + ws + [RecordStore(c, js, t).write]);
    assert s.cache[|d.cache| + |t|] == Write(js, img[js]);
    forall x | 0 <= x < |img| && x != js && img[x] != d.medium[x] ensures Pending(s, x) {
      if forall i :: 0 <= i < |t| ==> ws[i].lba != x {
        LandElsewhere(d.medium, ws, x);
      } else {
        var i :| 0 <= i < |t| && ws[i].lba == x;
        assert s.cache[|d.cache| + i] == ws[i];
      }
    }
  }
}
