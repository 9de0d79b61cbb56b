/** The transaction buffer and the journal operations of the file system service, as methods on a
    mounted volume (services/fs/src/main.rs). */
module FileSystem {
  import opened Text
  import opened Journal
  import opened JournalHistory

  datatype Result = Ok | Err(why: string)

  function Stored(d: Disk, ws: seq<Write>): Disk { Disk(d.medium, d.cache + ws) }

  function AfterFlush(d: Disk, flushes: bool): Disk { if flushes then Disk(View(d), []) else d }

  /** The writes a drive takes that fails after `good` of them. */
  function Taken(ws: seq<Write>, good: nat): seq<Write> { if |ws| <= good then ws else ws[..good] }

  /** What a commit leaves behind, by what the drive made of each flush and how many block writes it took. The
      first two answers are not looked at; a refusal of the last keeps the record, so that the next mount
      replays what may not have reached home. A write that fails ends the commit there. */
  function CommittedDisk(c: Codec, js: nat, d: Disk, t: Txn, a: Answers, good: nat): Disk {
    var n := |t|;
    var inJournal := Stored(d, Taken(StageWrites(js, t), good));
    if good < n then inJournal
    else
      var staged := AfterFlush(inJournal, a.staged);
      if good == n then staged
      else
        CheckpointedDisk(c, js, AfterFlush(Stored(staged, [RecordStore(c, js, t).write]), a.recorded), t, a,
            good - n - 1)
  }

  /** The rest of it, from the record on. */
  function CheckpointedDisk(c: Codec, js: nat, d: Disk, t: Txn, a: Answers, good: nat): Disk {
    var homed := Stored(d, Taken(t, good));
    if good < |t| then homed
    else
      var home := AfterFlush(homed, a.home);
      if a.home && good > |t| then Stored(home, [Write(js, c.blank)]) else home
  }

  /** How many operations of the commit come before the write that fails, all of them if none does. */
  function Issued(t: Txn, a: Answers, good: nat): nat {
    var n := |t|;
    if good < n then good
    else if good == n then n + |Flush(a.staged)|
    else if good < 2 * n + 1 then n + |Flush(a.staged)| + 1 + |Flush(a.recorded)| + (good - n - 1)
    else if a.home && good == 2 * n + 1 then n + |Flush(a.staged)| + 1 + |Flush(a.recorded)| + n + 1
    else n + |Flush(a.staged)| + 1 + |Flush(a.recorded)| + n + if a.home then 2 else 0
  }

  lemma RunFlush(d: Disk, honoured: bool)
    ensures Run(d, Flush(honoured)) == AfterFlush(d, honoured)
  {
    if honoured { RunOne(d, Barrier); }
  }

  /** One batch of writes and the flush behind it. */
  lemma RunBatch(d: Disk, ws: seq<Write>, honoured: bool)
    ensures Run(d, Stores(ws) + Flush(honoured)) == AfterFlush(Stored(d, ws), honoured)
  {
    RunStores(d, ws);
    RunConcat(d, Stores(ws), Flush(honoured));
    RunFlush(Stored(d, ws), honoured);
  }

  lemma RunTaken(d: Disk, ws: seq<Write>, good: nat)
    requires good <= |ws|
    ensures Run(d, Stores(ws)[..good]) == Stored(d, Taken(ws, good))
  {
    RunStoresPrefix(d, ws, good);
    if good == |ws| { assert ws[..good] == ws; }
  }

  function Staging(c: Codec, js: nat, t: Txn, a: Answers): seq<Op> { StageOps(js, t) + Flush(a.staged) }

  function Recording(c: Codec, js: nat, t: Txn, a: Answers): seq<Op> { [RecordStore(c, js, t)] + Flush(a.recorded) }

  function Ending(c: Codec, js: nat, a: Answers): seq<Op> {
    if a.home then [Barrier] + [Store(Write(js, c.blank))] else []
  }

  lemma CommitInFour(c: Codec, js: nat, t: Txn, a: Answers)
    ensures CommitOps(c, js, t, a) == Staging(c, js, t, a) + Recording(c, js, t, a) + HomeOps(t) + Ending(c, js, a)
  {
  }

  lemma RunRecording(c: Codec, js: nat, d: Disk, t: Txn, a: Answers)
    ensures Run(d, Recording(c, js, t, a)) == AfterFlush(Stored(d, [RecordStore(c, js, t).write]), a.recorded)
  {
    RunConcat(d, [RecordStore(c, js, t)], Flush(a.recorded));
    RunOne(d, RecordStore(c, js, t));
    RunFlush(Stored(d, [RecordStore(c, js, t).write]), a.recorded);
  }

  lemma RunEnding(c: Codec, js: nat, d: Disk, a: Answers)
    ensures Run(d, Ending(c, js, a)) ==
            if a.home then Stored(AfterFlush(d, true), [Write(js, c.blank)]) else AfterFlush(d, false)
  {
    if a.home {
      RunConcat(d, [Barrier], [Store(Write(js, c.blank))]);
      RunOne(d, Barrier);
      RunOne(AfterFlush(d, true), Store(Write(js, c.blank)));
    }
  }

  /** Up to and including the record. */
  lemma RunEarlyPart(c: Codec, js: nat, d: Disk, t: Txn, a: Answers)
    ensures Run(d, Staging(c, js, t, a)) == AfterFlush(Stored(d, StageWrites(js, t)), a.staged)
    ensures Run(d, Staging(c, js, t, a) + Recording(c, js, t, a)) ==
            AfterFlush(Stored(AfterFlush(Stored(d, StageWrites(js, t)), a.staged), [RecordStore(c, js, t).write]),
                a.recorded)
  {
    RunBatch(d, StageWrites(js, t), a.staged);
    RunConcat(d, Staging(c, js, t, a), Recording(c, js, t, a));
    RunRecording(c, js, Run(d, Staging(c, js, t, a)), t, a);
  }

  /** Up to a checkpoint write that fails. */
  lemma RunHomePart(c: Codec, js: nat, d: Disk, t: Txn, a: Answers, k: nat)
    requires k <= |t|
    ensures Run(d, Staging(c, js, t, a) + Recording(c, js, t, a) + HomeOps(t)[..k]) ==
            Stored(Run(d, Staging(c, js, t, a) + Recording(c, js, t, a)), Taken(t, k))
  {
    var first := Staging(c, js, t, a) + Recording(c, js, t, a);
    RunConcat(d, first, HomeOps(t)[..k]);
    RunTaken(Run(d, first), t, k);
  }

  lemma CommitPrefixes(c: Codec, js: nat, t: Txn, a: Answers, good: nat)
    ensures Issued(t, a, good) <= |CommitOps(c, js, t, a)|
    ensures var ops, n := CommitOps(c, js, t, a)[..Issued(t, a, good)], |t|;
            var first := Staging(c, js, t, a) + Recording(c, js, t, a);
            && (good < n ==> ops == StageOps(js, t)[..good])
            && (good == n ==> ops == Staging(c, js, t, a))
            && (n < good <= 2 * n ==> ops == first + HomeOps(t)[..good - n - 1])
            && (a.home && good == 2 * n + 1 ==> ops == first + HomeOps(t) + [Barrier])
            && (good > 2 * n && !(a.home && good == 2 * n + 1) ==> ops == CommitOps(c, js, t, a))
  {
    CommitInFour(c, js, t, a);
  }

  lemma CheckpointRun(c: Codec, js: nat, d: Disk, t: Txn, a: Answers)
    ensures CheckpointedDisk(c, js, d, t, a, |t| + 1) == Run(d, HomeOps(t) + Ending(c, js, a))
    ensures !a.home ==> CheckpointedDisk(c, js, d, t, a, |t|) == Run(d, HomeOps(t) + Ending(c, js, a))
    ensures a.home ==> CheckpointedDisk(c, js, d, t, a, |t|) == Run(d, HomeOps(t) + [Barrier])
  {
    RunStores(d, t);
    RunConcat(d, HomeOps(t), Ending(c, js, a));
    RunEnding(c, js, Stored(d, t), a);
    RunConcat(d, HomeOps(t), [Barrier]);
    RunOne(Stored(d, t), Barrier);
  }

  /** A commit past its record. */
  lemma CommittedFromRecord(c: Codec, js: nat, d: Disk, t: Txn, a: Answers, good: nat)
    requires good > |t|
    ensures CommittedDisk(c, js, d, t, a, good) ==
            CheckpointedDisk(c, js, Run(d, Staging(c, js, t, a) + Recording(c, js, t, a)), t, a, good - |t| - 1)
  {
    RunEarlyPart(c, js, d, t, a);
  }

  lemma WholeRun(c: Codec, js: nat, d: Disk, t: Txn, a: Answers, good: nat)
    requires good > 2 * |t| + 1 || (good == 2 * |t| + 1 && !a.home)
    ensures CommittedDisk(c, js, d, t, a, good) == Run(d, CommitOps(c, js, t, a))
  {
    var first := Staging(c, js, t, a) + Recording(c, js, t, a);
    CommitInFour(c, js, t, a);
    assert first + HomeOps(t) + Ending(c, js, a) == first + (HomeOps(t) + Ending(c, js, a));
    RunConcat(d, first, HomeOps(t) + Ending(c, js, a));
    CommittedFromRecord(c, js, d, t, a, good);
    CheckpointRun(c, js, Run(d, first), t, a);
  }

  lemma UninvalidatedRun(c: Codec, js: nat, d: Disk, t: Txn, a: Answers)
    requires a.home
    ensures CommittedDisk(c, js, d, t, a, 2 * |t| + 1) ==
            Run(d, Staging(c, js, t, a) + Recording(c, js, t, a) + HomeOps(t) + [Barrier])
  {
    var first := Staging(c, js, t, a) + Recording(c, js, t, a);
    assert first + HomeOps(t) + [Barrier] == first + (HomeOps(t) + [Barrier]);
    RunConcat(d, first, HomeOps(t) + [Barrier]);
    CommittedFromRecord(c, js, d, t, a, 2 * |t| + 1);
    CheckpointRun(c, js, Run(d, first), t, a);
  }

  /** Whatever the drive answers and wherever it fails a write, the direct description agrees with a prefix of the
      operation list, so that what a cut can leave now is what the crash proofs say of a cut there. */
  lemma CommittedDiskIsRun(c: Codec, js: nat, d: Disk, t: Txn, a: Answers, good: nat)
    ensures Issued(t, a, good) <= |CommitOps(c, js, t, a)|
    ensures CommittedDisk(c, js, d, t, a, good) == Run(d, CommitOps(c, js, t, a)[..Issued(t, a, good)])
  {
    CommitPrefixes(c, js, t, a, good);
    RunEarlyPart(c, js, d, t, a);
    if good < |t| {
      RunTaken(d, StageWrites(js, t), good);
    } else if |t| < good <= 2 * |t| {
      RunHomePart(c, js, d, t, a, good - |t| - 1);
    } else if good == 2 * |t| + 1 && a.home {
      UninvalidatedRun(c, js, d, t, a);
    } else if good > 2 * |t| {
      WholeRun(c, js, d, t, a, good);
    }
  }

  /** With no write failed it is what the histories take a commit to leave. */
  lemma CommittedDiskIsNext(c: Codec, js: nat, s: State, t: Txn, a: Answers)
    requires js + JOURNAL_BLOCKS <= |s.disk.medium|
    ensures CommittedDisk(c, js, s.disk, t, a, 2 * |t| + 2) == Next(c, js, s, Commit(t, a)).disk
  {
    WholeRun(c, js, s.disk, t, a, 2 * |t| + 2);
  }

  /** What recovery writes when the drive does not fail it. */
  function ReplayWrites(c: Codec, js: nat, img: seq<Block>): seq<Write>
    requires js + JOURNAL_BLOCKS <= |img|
  {
    match Found(c, js, img)
    case None => []
    case Some(t) => t + [Write(js, c.blank)]
  }

  lemma StoresThenOne(img: seq<Block>, t: Txn, w: Write)
    ensures Run(Disk(img, []), HomeOps(t) + [Store(w)]) == Disk(img, t + [w])
  {
    RunConcat(Disk(img, []), HomeOps(t), [Store(w)]);
    RunOne(Run(Disk(img, []), HomeOps(t)), Store(w));
    RunStores(Disk(img, []), t);
    assert [] + t == t;
  }

  lemma ClearedHome(c: Codec, js: nat, img: seq<Block>, t: Txn)
    requires js + JOURNAL_BLOCKS <= |img|
    ensures SameHome(js, {}, Land(img, t + [Write(js, c.blank)]), Land(img, t))
  {
    assert (t + [Write(js, c.blank)])[..|t|] == t;
  }

  lemma ReplayStored(c: Codec, js: nat, img: seq<Block>)
    requires js + JOURNAL_BLOCKS <= |img|
    ensures Disk(img, ReplayWrites(c, js, img)) == Run(Disk(img, []), ReplayOps(c, js, img))
    ensures SameHome(js, {}, Land(img, ReplayWrites(c, js, img)), Recovered(c, js, img))
  {
    match Found(c, js, img) {
      case None =>
      case Some(t) =>
        StoresThenOne(img, t, Write(js, c.blank));
        ClearedHome(c, js, img, t);
    }
  }

  lemma {:induction false} LandReplace(img: seq<Block>, ws: seq<Write>, i: nat, blk: Block)
    requires i < |ws| && ws[i].lba < |img|
    requires forall j, k :: 0 <= j < k < |ws| ==> ws[j].lba != ws[k].lba
    ensures Land(img, ws[i := Write(ws[i].lba, blk)]) == Land(img, ws)[ws[i].lba := blk]
  {
    var ws' := ws[i := Write(ws[i].lba, blk)];
    var n := |ws| - 1;
    if i == n {
      assert ws'[..n] == ws[..n];
    } else {
      LandReplace(img, ws[..n], i, blk);
      assert ws'[..n] == ws[..n][i := Write(ws[i].lba, blk)];
      assert ws[i].lba != ws[n].lba;
    }
  }

  // --- recovery on a drive that can fail ---

  /** How the drive answers what recovery asks of it: the record block, each staged block twice, each home write,
      and the invalidation. A read may fail or come back as anything. */
  datatype MountAnswers = MountAnswers(
    record: Option<Block>, first: nat -> Option<Block>, second: nat -> Option<Block>,
    accepted: nat -> bool, cleared: bool)

  predicate AllRead(first: nat -> Option<Block>, n: nat) { forall i :: 0 <= i < n ==> first(i).Some? }

  function Verified(first: nat -> Option<Block>, n: nat): seq<Block>
    requires AllRead(first, n)
  {
    seq(n, i requires 0 <= i < n => first(i).value)
  }

  /** The home writes of the second pass, whether all of them went through, and whether a changed block stopped it. */
  datatype Pass = Pass(writes: seq<Write>, whole: bool, stopped: bool)

  function SecondPass(crc: Block -> nat, homes: seq<nat>, m: MountAnswers, n: nat): Pass
    requires n <= |homes| && AllRead(m.first, n)
  {
    if n == 0 then Pass([], true, false)
    else
      var p := SecondPass(crc, homes, m, n - 1);
      if p.stopped then p
      else if m.second(n - 1).None? then p.(whole := false)
      else if crc(m.second(n - 1).value) != crc(m.first(n - 1).value) then p.(whole := false, stopped := true)
      else if m.accepted(n - 1) then p.(writes := p.writes + [Write(homes[n - 1], m.second(n - 1).value)])
      else p.(whole := false)
  }

  function PassWrites(c: Codec, js: nat, p: Pass, cleared: bool): seq<Write> {
    p.writes + if p.whole && cleared then [Write(js, c.blank)] else []
  }

  /** The record block reads as a record, and the staged blocks of the first pass check against it. */
  predicate Checked(c: Codec, m: MountAnswers) {
    && m.record.Some? && c.read(m.record.value).Some?
    && var r := c.read(m.record.value).value;
       1 <= |r.homes| <= TXN_CAP && AllRead(m.first, |r.homes|) && c.sum(Verified(m.first, |r.homes|)) == r.sum
  }

  /** What recovery writes. */
  function RecoverWrites(c: Codec, js: nat, crc: Block -> nat, m: MountAnswers): seq<Write> {
    if !Checked(c, m) then []
    else
      var homes := c.read(m.record.value).value.homes;
      PassWrites(c, js, SecondPass(crc, homes, m, |homes|), m.cleared)
  }

  lemma {:induction false} StoppedStays(crc: Block -> nat, homes: seq<nat>, m: MountAnswers, k: nat, n: nat)
    requires k <= n <= |homes| && AllRead(m.first, n) && SecondPass(crc, homes, m, k).stopped
    ensures SecondPass(crc, homes, m, n) == SecondPass(crc, homes, m, k)
    decreases n - k
  {
    if k < n { StoppedStays(crc, homes, m, k + 1, n); }
  }

  /** A block of the second pass, with the check it passed. */
  predicate Vouched(crc: Block -> nat, homes: seq<nat>, m: MountAnswers, w: Write, i: nat)
    requires i < |homes|
  {
    && m.first(i).Some? && m.second(i) == Some(w.blk) && w.lba == homes[i]
    && crc(w.blk) == crc(m.first(i).value)
  }

  /** The write carries some block the first pass checked, among the first `n`. */
  predicate SomeVouched(crc: Block -> nat, homes: seq<nat>, m: MountAnswers, w: Write, n: nat)
    requires n <= |homes|
  {
    exists i :: 0 <= i < n && Vouched(crc, homes, m, w, i)
  }

  /** Write number `i` carries block number `i`, for each of the first `n`. */
  predicate AllVouched(crc: Block -> nat, homes: seq<nat>, m: MountAnswers, ws: seq<Write>, n: nat)
    requires n <= |homes| && n <= |ws|
  {
    forall i :: 0 <= i < n ==> Vouched(crc, homes, m, ws[i], i)
  }

  lemma {:induction false} PassIsVouched(crc: Block -> nat, homes: seq<nat>, m: MountAnswers, n: nat)
    requires n <= |homes| && AllRead(m.first, n)
    ensures forall w :: w in SecondPass(crc, homes, m, n).writes ==> SomeVouched(crc, homes, m, w, n)
  {
    if n > 0 {
      PassIsVouched(crc, homes, m, n - 1);
      var p, q := SecondPass(crc, homes, m, n - 1), SecondPass(crc, homes, m, n);
      forall w | w in q.writes
        ensures SomeVouched(crc, homes, m, w, n)
      {
        if w in p.writes {
          assert SomeVouched(crc, homes, m, w, n - 1);
        } else {
          assert Vouched(crc, homes, m, w, n - 1);
        }
      }
    }
  }

  lemma {:induction false} WholePass(crc: Block -> nat, homes: seq<nat>, m: MountAnswers, n: nat)
    requires n <= |homes| && AllRead(m.first, n)
    ensures var p := SecondPass(crc, homes, m, n);
            && !(p.whole && p.stopped)
            && (p.whole ==> |p.writes| == n && AllVouched(crc, homes, m, p.writes, n))
  {
    if n > 0 { WholePass(crc, homes, m, n - 1); }
  }

  /** Whatever the drive returns or fails: home is only ever written, at an address the record gives, with bytes
      whose checksum is that of a block checked against the record; and the record is only invalidated once every
      block of it has been written home. */
  lemma RecoveryIsSafe(c: Codec, js: nat, crc: Block -> nat, m: MountAnswers)
    ensures !Checked(c, m) ==> RecoverWrites(c, js, crc, m) == []
    ensures Checked(c, m) ==>
              var homes, ws := c.read(m.record.value).value.homes, RecoverWrites(c, js, crc, m);
              forall k :: 0 <= k < |ws| ==>
                || SomeVouched(crc, homes, m, ws[k], |homes|)
                || (ws[k] == Write(js, c.blank) && k == |homes| && AllVouched(crc, homes, m, ws, |homes|))
  {
    if Checked(c, m) {
      var homes, ws := c.read(m.record.value).value.homes, RecoverWrites(c, js, crc, m);
      var p := SecondPass(crc, homes, m, |homes|);
      PassIsVouched(crc, homes, m, |homes|);
      WholePass(crc, homes, m, |homes|);
      forall k | 0 <= k < |ws|
        ensures || SomeVouched(crc, homes, m, ws[k], |homes|)
                || (ws[k] == Write(js, c.blank) && k == |homes| && AllVouched(crc, homes, m, ws, |homes|))
      {
        if k < |p.writes| {
          assert ws[k] == p.writes[k] && ws[k] in p.writes;
        } else {
          assert forall i :: 0 <= i < |homes| ==> ws[i] == p.writes[i];
        }
      }
    }
  }

  /** The drive reads what is on its medium and takes what it is given. */
  ghost predicate Truthful(js: nat, img: seq<Block>, m: MountAnswers) {
    && js + JOURNAL_BLOCKS <= |img| && m.record == Some(img[js]) && m.cleared
    && forall i :: 0 <= i < TXN_CAP ==> m.first(i) == m.second(i) == Some(img[js + 1 + i]) && m.accepted(i)
  }

  lemma {:induction false} TruthfulPass(js: nat, img: seq<Block>, crc: Block -> nat, homes: seq<nat>, m: MountAnswers,
      n: nat)
    requires Truthful(js, img, m) && n <= |homes| <= TXN_CAP
    ensures AllRead(m.first, n)
    ensures SecondPass(crc, homes, m, n)
        == Pass(seq(n, i requires 0 <= i < n => Write(homes[i], img[js + 1 + i])), true, false)
  {
    if n > 0 { TruthfulPass(js, img, crc, homes, m, n - 1); }
  }

  lemma TruthfulWrites(c: Codec, js: nat, img: seq<Block>, crc: Block -> nat, m: MountAnswers)
    requires Truthful(js, img, m)
    ensures RecoverWrites(c, js, crc, m) == ReplayWrites(c, js, img)
  {
    if c.read(img[js]).Some? && 1 <= |c.read(img[js]).value.homes| <= TXN_CAP {
      var homes := c.read(img[js]).value.homes;
      TruthfulPass(js, img, crc, homes, m, |homes|);
      assert Verified(m.first, |homes|) == img[js + 1..js + 1 + |homes|];
    }
  }

  /** On a truthful drive recovery is the replay the crash proofs are about, and reads then see it. */
  lemma TruthfulRecovery(c: Codec, js: nat, img: seq<Block>, crc: Block -> nat, m: MountAnswers)
    requires Truthful(js, img, m)
    ensures Stored(Disk(img, []), RecoverWrites(c, js, crc, m)) == Run(Disk(img, []), ReplayOps(c, js, img))
    ensures SameHome(js, {}, Land(img, RecoverWrites(c, js, crc, m)), Recovered(c, js, img))
  {
    var ws := RecoverWrites(c, js, crc, m);
    assert [] + ws == ws;
    TruthfulWrites(c, js, img, crc, m);
    ReplayStored(c, js, img);
  }

  class Volume {
    const c: Codec
    const js: nat
    var disk: Disk
    var txnActive: bool
    var txnOverflow: bool
    var txn: seq<Write>

    ghost predicate Valid()
      reads this
    {
      && js + JOURNAL_BLOCKS <= |disk.medium|
      && |txn| <= TXN_CAP
      && (forall i :: 0 <= i < |txn| ==> txn[i].lba < |disk.medium|)
      && (forall i, j :: 0 <= i < j < |txn| ==> txn[i].lba != txn[j].lba)
    }

    /** What the service itself reads: the disk, with the staged writes of its open transaction. */
    ghost function Sees(): (r: seq<Block>)
      reads this
      ensures |r| == |disk.medium|
    {
      if txnActive then Land(View(disk), txn) else View(disk)
    }

    constructor (c: Codec, js: nat, disk: Disk)
      requires js + JOURNAL_BLOCKS <= |disk.medium|
      ensures Valid() && this.c == c && this.js == js && this.disk == disk
      ensures !txnActive && !txnOverflow && txn == []
    {
      this.c, this.js, this.disk := c, js, disk;
      txnActive, txnOverflow, txn := false, false, [];
    }

    /** Some version of the block is staged. */
    predicate Staged(lba: nat)
      reads this
    {
      txnActive && exists i :: 0 <= i < |txn| && txn[i].lba == lba
    }

    /** `tb_read`: the newest staged version of the block, else the disk's, if the drive answers. */
    method BlockRead(lba: nat, answered: bool) returns (b: Option<Block>)
      requires Valid() && lba < |disk.medium|
      ensures b == if Staged(lba) || answered then Some(Sees()[lba]) else None
    {
      if txnActive {
        var i := |txn|;
        while i > 0
          invariant 0 <= i <= |txn|
          invariant forall j :: i <= j < |txn| ==> txn[j].lba != lba
        {
          i := i - 1;
          if txn[i].lba == lba {
            LandAt(View(disk), txn, i);
            return Some(txn[i].blk);
          }
        }
        LandElsewhere(View(disk), txn, lba);
      }
      b := if answered then Some(View(disk)[lba]) else None;
    }

    /** `tb_write`: stage the block, replacing an earlier version, or write through. */
    method BlockWrite(lba: nat, blk: Block, accepted: bool) returns (ok: bool)
      requires Valid() && lba < |disk.medium|
      modifies this`disk, this`txn, this`txnOverflow
      ensures Valid()
      ensures Sees() == if ok then old(Sees())[lba := blk] else old(Sees())
      ensures txnActive ==> disk == old(disk) && txnOverflow == (old(txnOverflow) || !ok)
      ensures txnActive ==> (ok <==> |old(txn)| < TXN_CAP || exists i :: 0 <= i < |old(txn)| && old(txn)[i].lba == lba)
      ensures !txnActive ==> ok == accepted && txn == old(txn) && txnOverflow == old(txnOverflow)
      ensures !txnActive ==> disk == if accepted then Exec(old(disk), Store(Write(lba, blk))) else old(disk)
    {
      if txnActive {
        for i := 0 to |txn|
          invariant forall j :: 0 <= j < i ==> txn[j].lba != lba
          invariant txn == old(txn) && txnOverflow == old(txnOverflow)
        {
          if txn[i].lba == lba {
            LandReplace(View(disk), txn, i, blk);
            txn := txn[i := Write(lba, blk)];
            return true;
          }
        }
        if |txn| >= TXN_CAP {
          txnOverflow := true;
          return false;
        }
        assert (txn + [Write(lba, blk)])[..|txn|] == txn;
        txn := txn + [Write(lba, blk)];
        return true;
      } else {
        if !accepted { return false; }
        assert (disk.cache + [Write(lba, blk)])[..|disk.cache|] == disk.cache;
        disk := Exec(disk, Store(Write(lba, blk)));
        return true;
      }
    }

    method BeginTxn()
      requires Valid()
      modifies this`txnActive, this`txnOverflow, this`txn
      ensures Valid() && txnActive && !txnOverflow && txn == [] && Sees() == View(disk)
    {
      txnActive, txnOverflow, txn := true, false, [];
    }

    /** `abort_txn`: nothing staged is ever seen again. */
    method AbortTxn()
      requires Valid()
      modifies this`txnActive, this`txnOverflow, this`txn
      ensures Valid() && !txnActive && !txnOverflow && txn == [] && Sees() == View(disk)
    {
      txnActive, txnOverflow, txn := false, false, [];
    }

    method BlockStore(lba: nat, blk: Block)
      requires Valid()
      modifies this`disk
      ensures Valid() && disk == Stored(old(disk), [Write(lba, blk)])
    {
      disk := Exec(disk, Store(Write(lba, blk)));
    }

    /** A flush the drive honours or refuses. */
    method Flush(honoured: bool) returns (durable: bool)
      requires Valid()
      modifies this`disk
      ensures Valid() && durable == honoured
      ensures disk == AfterFlush(old(disk), honoured)
    {
      if honoured { disk := Exec(disk, Barrier); }
      durable := honoured;
    }

    /** One block write after another, as the staging and checkpoint loops issue them, up to the first the drive
        fails: the first `good` are taken. */
    method StoreAll(ws: seq<Write>, good: nat) returns (all: bool)
      requires Valid()
      modifies this`disk
      ensures Valid() && all == (|ws| <= good) && disk == Stored(old(disk), Taken(ws, good))
    {
      assert disk.cache + ws[..0] == disk.cache;
      for i := 0 to |ws|
        invariant i <= good
        invariant Valid() && disk == Stored(old(disk), ws[..i])
      {
        if i == good { return false; }
        BlockStore(ws[i].lba, ws[i].blk);
        assert ws[..i + 1] == ws[..i] + [ws[i]];
        assert old(disk).cache + ws[..i] + [ws[i]] == old(disk).cache + ws[..i + 1];
      }
      assert ws[..|ws|] == ws;
      return true;
    }

    /** The rest of `commit_txn`, once the record is written. */
    method Checkpoint(answers: Answers, good: nat) returns (r: Result)
      requires Valid()
      modifies this`disk
      ensures Valid() && (r.Ok? <==> good >= |txn|)
      ensures disk == CheckpointedDisk(c, js, old(disk), txn, answers, good)
    {
      var homed := StoreAll(txn, good);
      if !homed { return Err("checkpoint write failed (will replay on next mount)"); }
      var durable := Flush(answers.home);
      if !durable || good == |txn| { return Ok; }
      BlockStore(js, c.blank);
      return Ok;
    }

    /** `commit_txn`, on a drive that takes the first `good` block writes. A transaction that overflowed is refused
        and the disk is untouched. */
    method CommitTxn(answers: Answers, good: nat) returns (r: Result)
      requires Valid() && txnActive
      modifies this`disk, this`txnActive, this`txnOverflow, this`txn
      ensures Valid() && !txnActive
      ensures r.Ok? <==> !old(txnOverflow) && (old(txn) == [] || good > 2 * |old(txn)|)
      ensures disk == if old(txnOverflow) || old(txn) == [] then old(disk)
                      else CommittedDisk(c, js, old(disk), old(txn), answers, good)
    {
      if txnOverflow {
        AbortTxn();
        return Err("transaction too large to commit atomically");
      }
      txnActive := false;
      var n := |txn|;
      if n == 0 { return Ok; }
      var staged := StoreAll(StageWrites(js, txn), good);
      if !staged { return Err("journal data write failed"); }
      var _ := Flush(answers.staged);
      if good == n { return Err("journal commit write failed"); }
      BlockStore(js, c.write(RecordOf(c, txn)));
      var _ := Flush(answers.recorded);
      r := Checkpoint(answers, good - n - 1);
    }

    /** `recover`, run on a volume nobody has opened yet: the staged blocks are read once to check them and once more
        to apply them, and a block that changed in between stops it. */
    method Recover(crc: Block -> nat, m: MountAnswers)
      requires Valid() && !txnActive
      modifies this`disk
      ensures Valid() && disk == Stored(old(disk), RecoverWrites(c, js, crc, m))
    {
      assert disk.cache + [] == disk.cache;
      if m.record.None? { return; }
      var found := c.read(m.record.value);
      if found.None? { return; }
      var n := |found.value.homes|;
      if n == 0 || n > TXN_CAP { return; }
      var staged: seq<Block> := [];
      for i := 0 to n
        invariant disk == old(disk) && AllRead(m.first, i) && staged == Verified(m.first, i)
      {
        if m.first(i).None? {
          assert !AllRead(m.first, n);
          return;
        }
        staged := staged + [m.first(i).value];
      }
      if c.sum(staged) != found.value.sum { return; }
      Apply(crc, found.value.homes, m);
    }

    /** The second pass of `recover`. */
    method Apply(crc: Block -> nat, homes: seq<nat>, m: MountAnswers)
      requires Valid() && AllRead(m.first, |homes|)
      modifies this`disk
      ensures Valid()
      ensures disk == Stored(old(disk), PassWrites(c, js, SecondPass(crc, homes, m, |homes|), m.cleared))
    {
      var whole := true;
      assert disk.cache + [] == disk.cache;
      for i := 0 to |homes|
        invariant Valid()
        invariant var p := SecondPass(crc, homes, m, i);
                  !p.stopped && whole == p.whole && disk == Stored(old(disk), p.writes)
      {
        assert AllRead(m.first, i + 1);
        var b := m.second(i);
        if b.None? {
          whole := false;
        } else if crc(b.value) != crc(m.first(i).value) {
          StoppedStays(crc, homes, m, i + 1, |homes|);
          assert disk.cache + [] == disk.cache;
          return;
        } else if m.accepted(i) {
          ghost var p := SecondPass(crc, homes, m, i);
          BlockStore(homes[i], b.value);
          assert old(disk).cache + p.writes + [Write(homes[i], b.value)]
              == old(disk).cache + (p.writes + [Write(homes[i], b.value)]);
        } else {
          whole := false;
        }
      }
      ghost var p := SecondPass(crc, homes, m, |homes|);
      if whole && m.cleared {
        BlockStore(js, c.blank);
        assert old(disk).cache + p.writes + [Write(js, c.blank)] == old(disk).cache + (p.writes + [Write(js, c.blank)]);
      } else {
        assert p.writes + [] == p.writes;
      }
    }
  }
}
