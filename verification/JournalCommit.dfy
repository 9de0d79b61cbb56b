/** Cutting the power anywhere in a commit, whatever the drive makes of its flushes (`commit_txn`,
    services/fs/src/main.rs). */
module JournalCommit {
  import opened Text
  import opened Journal

  /** How many operations a commit has issued once its record is on its way. */
  function Recorded(t: Txn, a: Answers): nat { |t| + |Flush(a.staged)| + 1 }

  /** The transaction survives a cut after `k` operations of a commit whose second flush is honoured: always
      once that has passed, never before the record is written, and in between just when the record landed
      and its payload checks. */
  predicate Survives(c: Codec, js: nat, t: Txn, a: Answers, k: nat, img: seq<Block>) {
    || k > Recorded(t, a)
    || (k == Recorded(t, a) && js + JOURNAL_BLOCKS <= |img| && img[js] == c.write(RecordOf(c, t))
        && Found(c, js, img).Some?)
  }

  /** The record landed ahead of a payload nothing held back: it is live and does not check. */
  predicate FallsAsleep(c: Codec, js: nat, t: Txn, a: Answers, k: nat, img: seq<Block>) {
    !a.staged && k == Recorded(t, a) && js < |img| && img[js] == c.write(RecordOf(c, t))
  }

  /** An image `recover` brings to `h`, and goes on bringing to `h` if it is cut short itself. */
  ghost predicate Recoverable(c: Codec, js: nat, d: Disk, h: seq<Block>, ps: set<seq<Block>>, free: set<nat>,
      asleep: bool)
  {
    && d.cache == []
    && (|| Idle(c, js, d, h, ps, free, asleep)
        || (!asleep && exists h0, t :: Committed(c, js, d, h0, t, ps, free) && SameHome(js, free, Land(h0, t), h)))
  }

  /** After a cut: the next mount serves `h`, and so does every mount after cuts in its replay. */
  ghost predicate ServesAfterCut(c: Codec, js: nat, img: seq<Block>, h: seq<Block>, ps: set<seq<Block>>, free: set<nat>,
                                 asleep: bool)
  {
    && js + JOURNAL_BLOCKS <= |img|
    && SameHome(js, free, Recovered(c, js, img), h)
    && Recoverable(c, js, Disk(img, []), h, ps, free, asleep)
  }

  // --- a commit with every flush honoured, phase by phase ---

  lemma CommitSplit(c: Codec, js: nat, t: Txn)
    ensures var n := |t|; var ops := FullOps(c, js, t);
            && (forall k :: 0 <= k <= n ==> ops[..k] == StageOps(js, t)[..k])
            && ops[..n + 1] == StageOps(js, t) + [Barrier]
            && ops[..n + 2] == StageOps(js, t) + [Barrier] + [RecordStore(c, js, t)]
            && ops[..n + 3] == StageOps(js, t) + [Barrier] + [RecordStore(c, js, t), Barrier]
            && (forall k :: n + 3 <= k <= 2 * n + 3 ==> ops[..k] == ops[..n + 3] + HomeOps(t)[..k - n - 3])
            && ops[..2 * n + 4] == ops[..2 * n + 3] + [Barrier]
            && ops == ops[..2 * n + 4] + [Store(Write(js, c.blank))]
  {
    assert FullOps(c, js, t) == StageOps(js, t) + [Barrier, RecordStore(c, js, t), Barrier]
                                + HomeOps(t) + [Barrier, Store(Write(js, c.blank))];
  }

  lemma PhaseStaged(c: Codec, js: nat, d: Disk, h: seq<Block>, t: Txn, ps: set<seq<Block>>, k: nat, free: set<nat>)
    requires Ready(js, d, t, ps) && Calm(c, js, d, h, ps, free) && k <= |t| + 1
    ensures var s := Run(d, FullOps(c, js, t)[..k]);
            && Calm(c, js, s, h, ps, free)
            && (c.read(s.medium[js]).None? || s.medium[js] == d.medium[js])
            && (k == |t| + 1 ==> s.cache == [] && s.medium[js + 1..js + 1 + |t|] == Blocks(t))
  {
    CommitSplit(c, js, t);
    if k <= |t| {
      Staging(c, js, d, h, t, ps, k, free);
    } else {
      Staged(c, js, d, h, t, ps, free);
    }
  }

  lemma RunToCommitted(c: Codec, js: nat, d: Disk, t: Txn)
    ensures Run(d, FullOps(c, js, t)[..|t| + 3])
         == Run(Run(d, FullOps(c, js, t)[..|t| + 1]), [RecordStore(c, js, t), Barrier])
  {
    CommitSplit(c, js, t);
    RunConcat(d, StageOps(js, t) + [Barrier], [RecordStore(c, js, t), Barrier]);
  }

  lemma RunToHome(c: Codec, js: nat, d: Disk, t: Txn, k: nat)
    requires k <= |t|
    ensures Run(d, FullOps(c, js, t)[..|t| + 3 + k])
         == Run(Run(d, FullOps(c, js, t)[..|t| + 3]), HomeOps(t)[..k])
  {
    CommitSplit(c, js, t);
    RunConcat(d, FullOps(c, js, t)[..|t| + 3], HomeOps(t)[..k]);
  }

  lemma RunToEnd(c: Codec, js: nat, d: Disk, t: Txn)
    ensures Run(d, FullOps(c, js, t)[..2 * |t| + 4]) == Exec(Run(d, FullOps(c, js, t)[..2 * |t| + 3]), Barrier)
    ensures Run(d, FullOps(c, js, t)) == Exec(Run(d, FullOps(c, js, t)[..2 * |t| + 4]), Store(Write(js, c.blank)))
  {
    var ops := FullOps(c, js, t);
    CommitSplit(c, js, t);
    RunConcat(d, ops[..2 * |t| + 3], [Barrier]);
    RunOne(Run(d, ops[..2 * |t| + 3]), Barrier);
    RunConcat(d, ops[..2 * |t| + 4], [Store(Write(js, c.blank))]);
    RunOne(Run(d, ops[..2 * |t| + 4]), Store(Write(js, c.blank)));
  }

  lemma PhaseRecorded(c: Codec, js: nat, d: Disk, h: seq<Block>, t: Txn, ps: set<seq<Block>>, free: set<nat>)
    requires Lawful(c) && Ready(js, d, t, ps) && Calm(c, js, d, h, ps, free)
    ensures var s := Run(d, FullOps(c, js, t)[..|t| + 3]);
            Committed(c, js, s, h, t, ps, free - HomeSet(t)) && s.cache == []
  {
    PhaseStaged(c, js, d, h, t, ps, |t| + 1, free);
    RunToCommitted(c, js, d, t);
    RecordLanded(c, js, Run(d, FullOps(c, js, t)[..|t| + 1]), h, t, ps, free);
  }

  lemma PhaseCommitted(c: Codec, js: nat, d: Disk, h: seq<Block>, t: Txn, ps: set<seq<Block>>, k: nat, free: set<nat>)
    requires Lawful(c) && Ready(js, d, t, ps) && Calm(c, js, d, h, ps, free) && k <= |t|
    ensures Committed(c, js, Run(d, FullOps(c, js, t)[..|t| + 3 + k]), h, t, ps, free - HomeSet(t))
    ensures Run(d, FullOps(c, js, t)[..|t| + 3 + k])
         == Disk(Run(d, FullOps(c, js, t)[..|t| + 3]).medium, t[..k])
  {
    PhaseRecorded(c, js, d, h, t, ps, free);
    RunToHome(c, js, d, t, k);
    Checkpointing(c, js, Run(d, FullOps(c, js, t)[..|t| + 3]), h, t, ps, k, free - HomeSet(t));
  }

  lemma PhaseDone(c: Codec, js: nat, d: Disk, h: seq<Block>, t: Txn, ps: set<seq<Block>>, free: set<nat>)
    requires Lawful(c) && Discriminates(c, ps) && Ready(js, d, t, ps) && Calm(c, js, d, h, ps, free)
    ensures Quiet(c, js, Run(d, FullOps(c, js, t)[..2 * |t| + 4]), Land(h, t), ps, free - HomeSet(t))
    ensures Quiet(c, js, Run(d, FullOps(c, js, t)), Land(h, t), ps, free - HomeSet(t))
    ensures Seen(js, View(Run(d, FullOps(c, js, t))), ps)
  {
    PhaseRecorded(c, js, d, h, t, ps, free);
    PhaseCommitted(c, js, d, h, t, ps, |t|, free);
    assert t[..|t|] == t;
    var s3 := Run(d, FullOps(c, js, t)[..|t| + 3]);
    Checkpointed(c, js, s3, h, t, ps, free - HomeSet(t));
    RunToEnd(c, js, d, t);
    QuietWithBlank(c, js, Disk(Land(s3.medium, t), []), Land(h, t), ps, free - HomeSet(t));
  }

  lemma QuietWithBlank(c: Codec, js: nat, d: Disk, h: seq<Block>, ps: set<seq<Block>>, free: set<nat>)
    requires Lawful(c) && Quiet(c, js, d, h, ps, free) && d.cache == []
    ensures Quiet(c, js, Exec(d, Store(Write(js, c.blank))), h, ps, free)
    ensures Seen(js, View(Exec(d, Store(Write(js, c.blank)))), ps)
  {
    var w := Write(js, c.blank);
    assert [] + [w] == [w];
    LandOne(d.medium, w);
    SeenElsewhere(js, d.medium, Put(d.medium, w), ps);
  }

  lemma WholeCommit(c: Codec, js: nat, t: Txn)
    ensures FullOps(c, js, t)[..2 * |t| + 5] == FullOps(c, js, t)
  {
    var ops := FullOps(c, js, t);
    assert |ops| == 2 * |t| + 5;
  }

  // --- the same disk, by what was answered ---

  /** The operation of a fully honoured commit that leaves the same disk as the `k`th of this one. */
  function Full(t: Txn, a: Answers, k: nat): nat { if !a.staged && k > |t| + 1 then k + 1 else k }

  lemma AnsweredStaged(c: Codec, js: nat, t: Txn, a: Answers, k: nat)
    requires a.recorded && k <= |CommitOps(c, js, t, a)| && (a.staged || k <= |t|)
    ensures k <= 2 * |t| + 5 && CommitOps(c, js, t, a)[..k] == FullOps(c, js, t)[..k]
  {
    var full, ops := FullOps(c, js, t), CommitOps(c, js, t, a);
    assert |ops| <= |full|;
    if a.staged {
      assert ops == full[..|ops|];
    } else {
      assert ops[..k] == StageOps(js, t)[..k] == full[..k];
    }
  }

  lemma AnsweredUnstaged(c: Codec, js: nat, t: Txn, a: Answers, k: nat)
    requires a.recorded && !a.staged && |t| + 2 <= k <= |CommitOps(c, js, t, a)|
    ensures k + 1 <= 2 * |t| + 5
    ensures CommitOps(c, js, t, a)[..k]
        == StageOps(js, t) + [RecordStore(c, js, t), Barrier] + FullOps(c, js, t)[|t| + 3..k + 1]
    ensures FullOps(c, js, t)[..k + 1] ==
            StageOps(js, t) + [Barrier] + [RecordStore(c, js, t), Barrier] + FullOps(c, js, t)[|t| + 3..k + 1]
  {
    var n := |t|;
    var full, ops := FullOps(c, js, t), CommitOps(c, js, t, a);
    var tail := HomeOps(t) + if a.home then [Barrier, Store(Write(js, c.blank))] else [];
    assert ops == StageOps(js, t) + [RecordStore(c, js, t), Barrier] + tail;
    assert full[n + 3..] == HomeOps(t) + [Barrier, Store(Write(js, c.blank))];
    assert tail == full[n + 3..n + 3 + |tail|];
    assert full == StageOps(js, t) + [Barrier] + [RecordStore(c, js, t), Barrier] + full[n + 3..];
  }

  /** Staged blocks and record in flight together, then a barrier: the same disk as in order. */
  lemma TogetherIsInOrder(c: Codec, js: nat, d: Disk, t: Txn)
    ensures Run(d, StageOps(js, t) + [RecordStore(c, js, t), Barrier])
         == Run(d, StageOps(js, t) + [Barrier] + [RecordStore(c, js, t), Barrier])
  {
    var stage, ws, rec := StageOps(js, t), StageWrites(js, t), RecordStore(c, js, t);
    RunTogether(c, js, d, t);
    assert stage + [rec, Barrier] == stage + [rec] + [Barrier];
    RunConcat(d, stage + [rec], [Barrier]);
    RunOne(Run(d, stage + [rec]), Barrier);
    LandConcat(d.medium, d.cache + ws, [rec.write]);
    LandConcat(d.medium, d.cache, ws);
    RunStaged(js, d, t);
    var s := Run(d, stage + [Barrier]);
    RunConcat(d, stage + [Barrier], [rec, Barrier]);
    assert [rec, Barrier] == [rec] + [Barrier];
    RunConcat(s, [rec], [Barrier]);
    RunOne(s, rec);
    RunOne(Run(s, [rec]), Barrier);
    assert [] + [rec.write] == [rec.write];
  }

  lemma RunTogether(c: Codec, js: nat, d: Disk, t: Txn)
    ensures Run(d, StageOps(js, t) + [RecordStore(c, js, t)])
         == Disk(d.medium, d.cache + StageWrites(js, t) + [RecordStore(c, js, t).write])
  {
    RunConcat(d, StageOps(js, t), [RecordStore(c, js, t)]);
    RunStores(d, StageWrites(js, t));
    RunOne(Run(d, StageOps(js, t)), RecordStore(c, js, t));
  }

  /** Whatever the first and the last answer, a commit whose second flush is honoured goes through the disks
      of one that was never refused, but for the moment when staged blocks and record are in flight together. */
  lemma RunAnswered(c: Codec, js: nat, d: Disk, t: Txn, a: Answers, k: nat)
    requires a.recorded && k <= |CommitOps(c, js, t, a)| && (a.staged || k != |t| + 1)
    ensures Full(t, a, k) <= 2 * |t| + 5
    ensures Run(d, CommitOps(c, js, t, a)[..k]) == Run(d, FullOps(c, js, t)[..Full(t, a, k)])
  {
    if a.staged || k <= |t| {
      AnsweredStaged(c, js, t, a, k);
    } else {
      AnsweredUnstaged(c, js, t, a, k);
      var tail := FullOps(c, js, t)[|t| + 3..k + 1];
      TogetherIsInOrder(c, js, d, t);
      RunConcat(d, StageOps(js, t) + [RecordStore(c, js, t), Barrier], tail);
      RunConcat(d, StageOps(js, t) + [Barrier] + [RecordStore(c, js, t), Barrier], tail);
    }
  }

  lemma OpsTogether(c: Codec, js: nat, t: Txn, a: Answers)
    requires !a.staged
    ensures |t| + 1 <= |CommitOps(c, js, t, a)|
    ensures CommitOps(c, js, t, a)[..|t| + 1] == StageOps(js, t) + [RecordStore(c, js, t)]
  {
    var tail := Flush(a.recorded) + HomeOps(t) + if a.home then [Barrier, Store(Write(js, c.blank))] else [];
    assert CommitOps(c, js, t, a) == StageOps(js, t) + [RecordStore(c, js, t)] + tail;
  }

  // --- cuts ---

  /** Nothing has come of the transaction, and a record left asleep still is. */
  lemma UntouchedServes(c: Codec, js: nat, d: Disk, h: seq<Block>, ps: set<seq<Block>>, img: seq<Block>, free: set<nat>,
                        asleep: bool)
    requires Idle(c, js, d, h, ps, free, asleep) && Calm(c, js, Disk(img, []), h, ps, free)
    requires c.read(img[js]).None? || img[js] == d.medium[js]
    requires asleep ==> Found(c, js, img).None?
    ensures ServesAfterCut(c, js, img, h, ps, free, asleep)
  {
    if !asleep { QuietReplay(c, js, img, h, ps, free); }
  }

  lemma EarlyCut(c: Codec, js: nat, d: Disk, h: seq<Block>, t: Txn, ps: set<seq<Block>>, k: nat, img: seq<Block>,
                 free: set<nat>, asleep: bool)
    requires Ready(js, d, t, ps) && Idle(c, js, d, h, ps, free, asleep) && k <= |t| + 1
    requires PowerCut(c, js, Run(d, FullOps(c, js, t)[..k]), img) && Seen(js, img, ps)
    requires asleep ==> Found(c, js, img).None?
    ensures ServesAfterCut(c, js, img, h, ps, free, asleep)
  {
    PhaseStaged(c, js, d, h, t, ps, k, free);
    CalmSurvives(c, js, Run(d, FullOps(c, js, t)[..k]), h, ps, img, free);
    UntouchedServes(c, js, d, h, ps, img, free, asleep);
  }

  lemma CommittedServes(c: Codec, js: nat, h: seq<Block>, t: Txn, ps: set<seq<Block>>, img: seq<Block>, free: set<nat>)
    requires Lawful(c) && Committed(c, js, Disk(img, []), h, t, ps, free)
    ensures ServesAfterCut(c, js, img, Land(h, t), ps, free, false) && Found(c, js, img).Some?
  {
    CommittedSurvives(c, js, Disk(img, []), h, t, ps, img, free);
  }

  lemma RecordCut(c: Codec, js: nat, d: Disk, h: seq<Block>, t: Txn, ps: set<seq<Block>>, img: seq<Block>,
                  free: set<nat>, asleep: bool)
    requires Lawful(c) && Ready(js, d, t, ps) && Idle(c, js, d, h, ps, free, asleep)
    requires PowerCut(c, js, Run(d, FullOps(c, js, t)[..|t| + 2]), img) && Seen(js, img, ps)
    requires asleep && img[js] != c.write(RecordOf(c, t)) ==> Found(c, js, img).None?
    ensures if img[js] == c.write(RecordOf(c, t))
            then ServesAfterCut(c, js, img, Land(h, t), ps, free - HomeSet(t), false) && Found(c, js, img).Some?
            else ServesAfterCut(c, js, img, h, ps, free, asleep)
  {
    var n := |t|;
    CommitSplit(c, js, t);
    PhaseStaged(c, js, d, h, t, ps, n + 1, free);
    var s1 := Run(d, FullOps(c, js, t)[..n + 1]);
    RunConcat(d, StageOps(js, t) + [Barrier], [RecordStore(c, js, t)]);
    RunOne(s1, RecordStore(c, js, t));
    RecordInFlight(c, js, s1, h, t, ps, img, free);
    if img[js] == c.write(RecordOf(c, t)) {
      CommittedServes(c, js, h, t, ps, img, free - HomeSet(t));
    } else {
      UntouchedServes(c, js, d, h, ps, img, free, asleep);
    }
  }

  lemma CommittedCut(c: Codec, js: nat, d: Disk, h: seq<Block>, t: Txn, ps: set<seq<Block>>, k: nat, img: seq<Block>,
                     free: set<nat>)
    requires Lawful(c) && Ready(js, d, t, ps) && Calm(c, js, d, h, ps, free) && k <= |t|
    requires PowerCut(c, js, Run(d, FullOps(c, js, t)[..|t| + 3 + k]), img) && Seen(js, img, ps)
    ensures ServesAfterCut(c, js, img, Land(h, t), ps, free - HomeSet(t), false)
  {
    PhaseCommitted(c, js, d, h, t, ps, k, free);
    CommittedSurvives(c, js, Run(d, FullOps(c, js, t)[..|t| + 3 + k]), h, t, ps, img, free - HomeSet(t));
  }

  lemma LateCut(c: Codec, js: nat, d: Disk, h: seq<Block>, t: Txn, ps: set<seq<Block>>, k: nat, img: seq<Block>,
                free: set<nat>)
    requires Lawful(c) && Discriminates(c, ps) && Ready(js, d, t, ps) && Calm(c, js, d, h, ps, free)
    requires 2 * |t| + 4 <= k <= 2 * |t| + 5
    requires PowerCut(c, js, Run(d, FullOps(c, js, t)[..k]), img) && Seen(js, img, ps)
    ensures ServesAfterCut(c, js, img, Land(h, t), ps, free - HomeSet(t), false)
  {
    PhaseDone(c, js, d, h, t, ps, free);
    WholeCommit(c, js, t);
    QuietSurvives(c, js, Run(d, FullOps(c, js, t)[..k]), Land(h, t), ps, img, free - HomeSet(t));
  }

  lemma DurableCut(c: Codec, js: nat, d: Disk, h: seq<Block>, t: Txn, ps: set<seq<Block>>, k: nat, img: seq<Block>,
                   free: set<nat>)
    requires Lawful(c) && Discriminates(c, ps) && Ready(js, d, t, ps) && Calm(c, js, d, h, ps, free)
    requires |t| + 3 <= k <= 2 * |t| + 5
    requires PowerCut(c, js, Run(d, FullOps(c, js, t)[..k]), img) && Seen(js, img, ps)
    ensures ServesAfterCut(c, js, img, Land(h, t), ps, free - HomeSet(t), false)
  {
    if k <= 2 * |t| + 3 {
      CommittedCut(c, js, d, h, t, ps, k - |t| - 3, img, free);
    } else {
      LateCut(c, js, d, h, t, ps, k, img, free);
    }
  }

  /** What a cut can leave while staged blocks and record are in flight together: home as it was, and a record
      that is none, the old one, or the one just written. */
  lemma TogetherLeaves(c: Codec, js: nat, d: Disk, h: seq<Block>, t: Txn, ps: set<seq<Block>>, img: seq<Block>,
      free: set<nat>)
    requires Calm(c, js, d, h, ps, free) && TxnOk(js, |h|, t) && Seen(js, img, ps)
    requires PowerCut(c, js, Run(d, StageOps(js, t) + [RecordStore(c, js, t)]), img)
    ensures Calm(c, js, Disk(img, []), h, ps, free)
    ensures c.read(img[js]).None? || img[js] == d.medium[js] || img[js] == c.write(RecordOf(c, t))
  {
    RunTogether(c, js, d, t);
    var s := Run(d, StageOps(js, t) + [RecordStore(c, js, t)]);
    forall i | 0 <= i < |s.cache|
      ensures InJournal(js, s.cache[i].lba) || s.cache[i].lba in free
      ensures s.cache[i].lba == js ==> c.read(s.cache[i].blk).None? || s.cache[i].blk == c.write(RecordOf(c, t))
    {
      if i < |d.cache| {
        assert Harmless(c, js, d.cache[i], free);
      } else if i < |d.cache| + |t| {
        assert s.cache[i] == StageWrites(js, t)[i - |d.cache|];
      }
    }
    forall l | 0 <= l < |img| && !InJournal(js, l) && l !in free ensures img[l] == h[l] {}
  }

  /** A record that landed and checks has its own payload under it: the checksum tells. */
  lemma ChecksMeansPayload(c: Codec, js: nat, d: Disk, t: Txn, ps: set<seq<Block>>, img: seq<Block>)
    requires Lawful(c) && Discriminates(c, ps) && Ready(js, d, t, ps) && Seen(js, img, ps)
    requires img[js] == c.write(RecordOf(c, t)) && Found(c, js, img).Some?
    ensures c.read(img[js]) == Some(RecordOf(c, t)) && img[js + 1..js + 1 + |t|] == Blocks(t)
  {
    RecordReads(c, js, |d.medium|, t);
    var staged := Land(View(d), StageWrites(js, t));
    PayloadLands(js, View(d), t);
    assert Payload(js, staged, |t|) == Blocks(t);
    assert Payload(js, img, |t|) == img[js + 1..js + 1 + |t|];
  }

  /** A cut while staged blocks and record are in flight together: all or nothing, by the payload checksum. */
  lemma TogetherCut(c: Codec, js: nat, d: Disk, h: seq<Block>, t: Txn, ps: set<seq<Block>>, img: seq<Block>,
                    free: set<nat>, asleep: bool)
    requires Lawful(c) && Discriminates(c, ps) && Ready(js, d, t, ps) && Idle(c, js, d, h, ps, free, asleep)
    requires PowerCut(c, js, Run(d, StageOps(js, t) + [RecordStore(c, js, t)]), img) && Seen(js, img, ps)
    requires asleep && img[js] != c.write(RecordOf(c, t)) ==> Found(c, js, img).None?
    ensures if img[js] != c.write(RecordOf(c, t)) then ServesAfterCut(c, js, img, h, ps, free, asleep)
            else if Found(c, js, img).None? then ServesAfterCut(c, js, img, h, ps, free, true)
            else ServesAfterCut(c, js, img, Land(h, t), ps, free - HomeSet(t), false)
  {
    TogetherLeaves(c, js, d, h, t, ps, img, free);
    if img[js] != c.write(RecordOf(c, t)) {
      UntouchedServes(c, js, d, h, ps, img, free, asleep);
    } else if Found(c, js, img).Some? {
      ChecksMeansPayload(c, js, d, t, ps, img);
      CommittedServes(c, js, h, t, ps, img, free - HomeSet(t));
    }
  }

  /** Power cut anywhere in a commit whose second flush is honoured, whatever became of the other two: the
      next mount serves the old home or the new one, whole. A record left asleep by an earlier cut is taken
      not to wake; `JournalMount.WakesExactly` says what can wake it. */
  lemma CommitIsAtomic(c: Codec, js: nat, d: Disk, h: seq<Block>, t: Txn, ps: set<seq<Block>>, a: Answers, k: nat,
                       img: seq<Block>, free: set<nat>, asleep: bool)
    requires Lawful(c) && Discriminates(c, ps) && Ready(js, d, t, ps) && Idle(c, js, d, h, ps, free, asleep)
    requires a.recorded && k <= |CommitOps(c, js, t, a)|
    requires PowerCut(c, js, Run(d, CommitOps(c, js, t, a)[..k]), img) && Seen(js, img, ps)
    requires asleep && !Survives(c, js, t, a, k, img) && !FallsAsleep(c, js, t, a, k, img) ==> Found(c, js, img).None?
    ensures if Survives(c, js, t, a, k, img) then ServesAfterCut(c, js, img, Land(h, t), ps, free - HomeSet(t), false)
            else ServesAfterCut(c, js, img, h, ps, free, asleep || FallsAsleep(c, js, t, a, k, img))
  {
    if !a.staged && k == |t| + 1 {
      OpsTogether(c, js, t, a);
      TogetherCut(c, js, d, h, t, ps, img, free, asleep);
    } else {
      RunAnswered(c, js, d, t, a, k);
      OrderedCut(c, js, d, h, t, ps, a, k, img, free, asleep);
    }
  }

  lemma OrderedCut(c: Codec, js: nat, d: Disk, h: seq<Block>, t: Txn, ps: set<seq<Block>>, a: Answers, k: nat,
                   img: seq<Block>, free: set<nat>, asleep: bool)
    requires Lawful(c) && Discriminates(c, ps) && Ready(js, d, t, ps) && Idle(c, js, d, h, ps, free, asleep)
    requires Full(t, a, k) <= 2 * |t| + 5 && (a.staged || k != |t| + 1)
    requires PowerCut(c, js, Run(d, FullOps(c, js, t)[..Full(t, a, k)]), img) && Seen(js, img, ps)
    requires asleep && !Survives(c, js, t, a, k, img) ==> Found(c, js, img).None?
    ensures if Survives(c, js, t, a, k, img) then ServesAfterCut(c, js, img, Land(h, t), ps, free - HomeSet(t), false)
            else ServesAfterCut(c, js, img, h, ps, free, asleep)
  {
    var m := Full(t, a, k);
    if m <= |t| + 1 {
      EarlyCut(c, js, d, h, t, ps, m, img, free, asleep);
    } else if m == |t| + 2 {
      RecordCut(c, js, d, h, t, ps, img, free, asleep);
    } else {
      DurableCut(c, js, d, h, t, ps, m, img, free);
    }
  }

  // --- exactly when a commit is atomic ---

  /** The image recovers to one of the two homes, whole. */
  ghost predicate Whole(c: Codec, js: nat, img: seq<Block>, h: seq<Block>, t: Txn, free: set<nat>) {
    && js + JOURNAL_BLOCKS <= |img|
    && (SameHome(js, free, Recovered(c, js, img), h) || SameHome(js, free, Recovered(c, js, img), Land(h, t)))
  }

  ghost predicate CutsTo(c: Codec, js: nat, d: Disk, t: Txn, ps: set<seq<Block>>, a: Answers, k: nat, img: seq<Block>) {
    k <= |CommitOps(c, js, t, a)| && PowerCut(c, js, Run(d, CommitOps(c, js, t, a)[..k]), img) && Seen(js, img, ps)
  }

  lemma CutIsWhole(c: Codec, js: nat, d: Disk, h: seq<Block>, t: Txn, ps: set<seq<Block>>, a: Answers, k: nat,
                   img: seq<Block>, free: set<nat>)
    requires Lawful(c) && Discriminates(c, ps) && Ready(js, d, t, ps) && Quiet(c, js, d, h, ps, free)
    requires a.recorded && CutsTo(c, js, d, t, ps, a, k, img)
    ensures Whole(c, js, img, h, t, free)
  {
    CommitIsAtomic(c, js, d, h, t, ps, a, k, img, free, false);
  }

  /** All the home writes issued, with the record still in flight among them. */
  lemma RunUnrecorded(c: Codec, js: nat, d: Disk, t: Txn, a: Answers)
    requires !a.recorded
    ensures Recorded(t, a) + |t| <= |CommitOps(c, js, t, a)|
    ensures var s := Run(d, CommitOps(c, js, t, a)[..Recorded(t, a) + |t|]);
        var first := Run(d, StageOps(js, t) + Flush(a.staged));
            s == Disk(first.medium, first.cache + [RecordStore(c, js, t).write] + t)
  {
    var first, rec := StageOps(js, t) + Flush(a.staged), RecordStore(c, js, t);
    var tail := if a.home then [Barrier, Store(Write(js, c.blank))] else [];
    assert CommitOps(c, js, t, a) == first + [rec] + HomeOps(t) + tail;
    assert CommitOps(c, js, t, a)[..Recorded(t, a) + |t|] == first + [rec] + HomeOps(t);
    RunConcat(d, first + [rec], HomeOps(t));
    RunConcat(d, first, [rec]);
    RunOne(Run(d, first), rec);
    RunStores(Run(d, first + [rec]), t);
  }

  /** The medium once staging is over, its flush honoured or not. */
  lemma StagedMedium(c: Codec, js: nat, d: Disk, h: seq<Block>, t: Txn, ps: set<seq<Block>>, honoured: bool,
      free: set<nat>)
    requires Calm(c, js, d, h, ps, free) && Ready(js, d, t, ps)
    ensures Calm(c, js, Run(d, StageOps(js, t) + Flush(honoured)), h, ps, free)
  {
    if honoured {
      Staged(c, js, d, h, t, ps, free);
    } else {
      assert StageOps(js, t) + Flush(honoured) == StageOps(js, t)[..|t|];
      Staging(c, js, d, h, t, ps, |t|, free);
    }
  }

  /** With the second flush refused, a cut can leave one of two changed blocks at home and no record. */
  lemma UnrecordedTears(c: Codec, js: nat, d: Disk, h: seq<Block>, t: Txn, ps: set<seq<Block>>, a: Answers,
                        i: nat, j: nat, free: set<nat>)
    returns (img: seq<Block>)
    requires Lawful(c) && Calm(c, js, d, h, ps, free) && Ready(js, d, t, ps) && !a.recorded
    requires i < |t| && j < |t| && i != j && t[i].lba !in free && t[j].lba !in free
    requires h[t[i].lba] != t[i].blk && h[t[j].lba] != t[j].blk
    ensures CutsTo(c, js, d, t, ps, a, Recorded(t, a) + |t|, img) && !Whole(c, js, img, h, t, free)
  {
    RunUnrecorded(c, js, d, t, a);
    StagedMedium(c, js, d, h, t, ps, a.staged, free);
    var first := Run(d, StageOps(js, t) + Flush(a.staged));
    img := first.medium[js := c.blank][t[i].lba := t[i].blk];
    OneBlockLands(c, js, first, t, i, img);
    SeenElsewhere(js, first.medium, img, ps);
    HalfHome(c, js, first.medium, h, t, i, j, free, img);
  }

  lemma OneBlockLands(c: Codec, js: nat, d: Disk, t: Txn, i: nat, img: seq<Block>)
    requires c.read(c.blank).None? && js < |d.medium| && i < |t| && js != t[i].lba < |d.medium|
    requires img == d.medium[js := c.blank][t[i].lba := t[i].blk]
    ensures PowerCut(c, js, Disk(d.medium, d.cache + [RecordStore(c, js, t).write] + t), img)
  {
    var s := Disk(d.medium, d.cache + [RecordStore(c, js, t).write] + t);
    assert s.cache[|d.cache|] == RecordStore(c, js, t).write && s.cache[|d.cache| + 1 + i] == t[i];
    assert Pending(s, js) && Pending(s, t[i].lba);
  }

  lemma HalfHome(c: Codec, js: nat, medium: seq<Block>, h: seq<Block>, t: Txn, i: nat, j: nat, free: set<nat>,
      img: seq<Block>)
    requires c.read(c.blank).None? && js + JOURNAL_BLOCKS <= |medium| && SameHome(js, free, medium, h)
        && TxnOk(js, |h|, t)
    requires i < |t| && j < |t| && i != j && t[i].lba !in free && t[j].lba !in free
    requires h[t[i].lba] != t[i].blk && h[t[j].lba] != t[j].blk
    requires img == medium[js := c.blank][t[i].lba := t[i].blk]
    ensures !Whole(c, js, img, h, t, free)
  {
    assert Found(c, js, img).None?;
    LandTxn(js, h, t);
    assert t[i].lba != t[j].lba && img[t[j].lba] == h[t[j].lba];
  }

  /** A commit that changes two blocks is atomic at every cut if and only if its second flush is honoured,
      whatever becomes of the other two. */
  lemma AtomicExactly(c: Codec, js: nat, d: Disk, h: seq<Block>, t: Txn, ps: set<seq<Block>>, a: Answers,
                      i: nat, j: nat, free: set<nat>)
    requires Lawful(c) && Discriminates(c, ps) && Quiet(c, js, d, h, ps, free) && Ready(js, d, t, ps)
    requires i < |t| && j < |t| && i != j && t[i].lba !in free && t[j].lba !in free
    requires h[t[i].lba] != t[i].blk && h[t[j].lba] != t[j].blk
    ensures (forall k, img :: CutsTo(c, js, d, t, ps, a, k, img) ==> Whole(c, js, img, h, t, free)) <==> a.recorded
  {
    if a.recorded {
      forall k, img | CutsTo(c, js, d, t, ps, a, k, img)
        ensures Whole(c, js, img, h, t, free)
      {
        CutIsWhole(c, js, d, h, t, ps, a, k, img, free);
      }
    } else {
      var img := UnrecordedTears(c, js, d, h, t, ps, a, i, j, free);
    }
  }
}
