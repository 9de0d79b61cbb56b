/** The crash-consistency journal of the file system service: the protocol between `commit_txn`,
    `recover` and a disk with a volatile write cache (services/fs/src/main.rs). */
module Journal {
  import opened Text
  import opened Bytes

  type Block = seq<Byte>

  const JOURNAL_BLOCKS := 64
  const TXN_CAP := 56

  /** Block numbers take eight bytes in a record, checksums four. */
  const LBA_LIMIT := 0x1_0000_0000_0000_0000
  const SUM_LIMIT := 0x1_0000_0000

  /** What a commit record says: the home of each staged block, and a checksum over all of them. */
  datatype CommitRecord = CommitRecord(homes: seq<nat>, sum: nat)

  /** How records and checksums are laid out in a block; see `JournalRecord` for the real one. */
  datatype Codec = Codec(read: Block -> Option<CommitRecord>, write: CommitRecord -> Block, sum: seq<Block> -> nat,
      blank: Block)

  datatype Write = Write(lba: nat, blk: Block)

  /** A disk: what is on the medium, and the acknowledged writes still in its cache, oldest first. */
  datatype Disk = Disk(medium: seq<Block>, cache: seq<Write>)

  datatype Op = Store(write: Write) | Barrier

  function Put(img: seq<Block>, w: Write): (r: seq<Block>)
    ensures |r| == |img|
  {
    if w.lba < |img| then img[w.lba := w.blk] else img
  }

  function Land(img: seq<Block>, ws: seq<Write>): (r: seq<Block>)
    ensures |r| == |img|
  {
    if ws == [] then img else Put(Land(img, ws[..|ws| - 1]), ws[|ws| - 1])
  }

  /** What a read sees: the medium with every cached write on top. */
  function View(d: Disk): seq<Block> { Land(d.medium, d.cache) }

  function Exec(d: Disk, op: Op): Disk {
    match op
    case Store(w) => Disk(d.medium, d.cache + [w])
    case Barrier => Disk(View(d), [])
  }

  function Run(d: Disk, ops: seq<Op>): Disk {
    if ops == [] then d else Exec(Run(d, ops[..|ops| - 1]), ops[|ops| - 1])
  }

  predicate InJournal(js: nat, lba: nat) { js <= lba < js + JOURNAL_BLOCKS }

  predicate Pending(d: Disk, lba: nat) { exists i :: 0 <= i < |d.cache| && d.cache[i].lba == lba }

  /** What the medium may hold after a power cut: a block with a write in flight comes back as
      anything at all, except that the record block is either old, one of the records written to
      it, or torn, and a torn record fails its own check. */
  ghost predicate PowerCut(c: Codec, js: nat, d: Disk, img: seq<Block>) {
    && |img| == |d.medium|
    && (forall l :: 0 <= l < |img| ==> img[l] == d.medium[l] || Pending(d, l))
    && (js < |img| && img[js] != d.medium[js] ==>
          || c.read(img[js]).None?
          || exists i :: 0 <= i < |d.cache| && d.cache[i] == Write(js, img[js]))
  }

  /** A cut that tears nothing: each block is as it was or as some write left it. */
  ghost predicate WholeSectors(d: Disk, img: seq<Block>) {
    |img| == |d.medium|
    && forall l :: 0 <= l < |img| ==>
         img[l] == d.medium[l] || exists i :: 0 <= i < |d.cache| && d.cache[i] == Write(l, img[l])
  }

  // --- the two operations ---

  type Txn = seq<Write>

  function Homes(t: Txn): (r: seq<nat>)
    ensures |r| == |t|
  {
    seq(|t|, i requires 0 <= i < |t| => t[i].lba)
  }

  function Blocks(t: Txn): (r: seq<Block>)
    ensures |r| == |t|
  {
    seq(|t|, i requires 0 <= i < |t| => t[i].blk)
  }

  function RecordOf(c: Codec, t: Txn): CommitRecord { CommitRecord(Homes(t), c.sum(Blocks(t))) }

  function Stores(ws: seq<Write>): (r: seq<Op>)
    ensures |r| == |ws|
  {
    seq(|ws|, i requires 0 <= i < |ws| => Store(ws[i]))
  }

  /** Step 1 writes the staged blocks into the journal, after the record block. */
  function StageWrites(js: nat, t: Txn): (r: seq<Write>)
    ensures |r| == |t|
  {
    seq(|t|, i requires 0 <= i < |t| => Write(js + 1 + i, t[i].blk))
  }

  function StageOps(js: nat, t: Txn): (r: seq<Op>)
    ensures |r| == |t|
  {
    Stores(StageWrites(js, t))
  }

  /** Step 3 writes them home. */
  function HomeOps(t: Txn): (r: seq<Op>)
    ensures |r| == |t|
  {
    Stores(t)
  }

  /** How the drive answers the three flushes of a commit. */
  datatype Answers = Answers(staged: bool, recorded: bool, home: bool)

  const HONOURED := Answers(true, true, true)

  /** A flush the drive refuses changes nothing. */
  function Flush(honoured: bool): seq<Op> { if honoured then [Barrier] else [] }

  function RecordStore(c: Codec, js: nat, t: Txn): Op { Store(Write(js, c.write(RecordOf(c, t)))) }

  /** `commit_txn`: stage, barrier, record, barrier, checkpoint, barrier, invalidate. Only the last answer
      is looked at: a refusal keeps the record. */
  function CommitOps(c: Codec, js: nat, t: Txn, a: Answers): seq<Op> {
    StageOps(js, t) + Flush(a.staged) + [RecordStore(c, js, t)] + Flush(a.recorded) + HomeOps(t)
      + if a.home then [Barrier, Store(Write(js, c.blank))] else []
  }

  /** A commit on a drive that honours every flush. */
  function FullOps(c: Codec, js: nat, t: Txn): (r: seq<Op>)
    ensures |r| == 2 * |t| + 5
  {
    CommitOps(c, js, t, HONOURED)
  }

  /** The transaction `recover` finds in an image, if its record and its payload both check. */
  function Found(c: Codec, js: nat, img: seq<Block>): (r: Option<Txn>)
    requires js + JOURNAL_BLOCKS <= |img|
  {
    match c.read(img[js])
    case None => None
    case Some(rec) =>
      var n := |rec.homes|;
      if n == 0 || n > TXN_CAP || c.sum(img[js + 1..js + 1 + n]) != rec.sum then None
      else Some(seq(n, i requires 0 <= i < n => Write(rec.homes[i], img[js + 1 + i])))
  }

  /** `recover`: every verified block home, then the record invalidated, with no barrier between. */
  function ReplayOps(c: Codec, js: nat, img: seq<Block>): seq<Op>
    requires js + JOURNAL_BLOCKS <= |img|
  {
    match Found(c, js, img)
    case None => []
    case Some(t) => HomeOps(t) + [Store(Write(js, c.blank))]
  }

  /** The image a mount goes on to serve. */
  function Recovered(c: Codec, js: nat, img: seq<Block>): (r: seq<Block>)
    requires js + JOURNAL_BLOCKS <= |img|
    ensures |r| == |img|
  {
    match Found(c, js, img)
    case None => img
    case Some(t) => Land(img, t)
  }

  // --- assumptions, each about the disk or the checksum ---

  /** A record that fits its fields: block numbers of eight bytes, a checksum of four. */
  predicate Fits(r: CommitRecord) {
    1 <= |r.homes| <= TXN_CAP && r.sum < SUM_LIMIT && forall i :: 0 <= i < |r.homes| ==> r.homes[i] < LBA_LIMIT
  }

  /** The record layout reads back, and an invalidated record is not one. */
  ghost predicate Lawful(c: Codec) {
    && c.read(c.blank).None?
    && (forall xs :: c.sum(xs) < SUM_LIMIT)
    && (forall r :: Fits(r) ==> c.read(c.write(r)) == Some(r))
  }

  /** Among the payloads `ps`, those of one length with equal checksums are equal. */
  predicate Discriminates(c: Codec, ps: set<seq<Block>>) {
    forall xs, ys :: xs in ps && ys in ps && |xs| == |ys| && c.sum(xs) == c.sum(ys) ==> xs == ys
  }

  /** The `n` blocks after the record block: the payload a record of `n` blocks is read with. */
  function Payload(js: nat, img: seq<Block>, n: nat): (r: seq<Block>)
    requires js + JOURNAL_BLOCKS <= |img| && n <= TXN_CAP
    ensures |r| == n
  {
    img[js + 1..js + 1 + n]
  }

  /** Every payload the image could be read with is among `ps`. */
  predicate Seen(js: nat, img: seq<Block>, ps: set<seq<Block>>) {
    js + JOURNAL_BLOCKS <= |img| && forall n :: 0 <= n <= TXN_CAP ==> Payload(js, img, n) in ps
  }

  /** A staged transaction: bounded, on distinct blocks of the disk outside the journal. */
  predicate TxnOk(js: nat, size: nat, t: Txn) {
    && 1 <= |t| <= TXN_CAP
    && (forall i :: 0 <= i < |t| ==> t[i].lba < size && t[i].lba < LBA_LIMIT && !InJournal(js, t[i].lba))
    && (forall i, j :: 0 <= i < j < |t| ==> t[i].lba != t[j].lba)
  }

  /** Two images agree everywhere but in the journal and on the blocks of `free`. */
  predicate SameHome(js: nat, free: set<nat>, a: seq<Block>, b: seq<Block>) {
    |a| == |b| && forall l :: 0 <= l < |a| && !InJournal(js, l) && l !in free ==> a[l] == b[l]
  }

  /** The blocks a transaction writes. */
  function HomeSet(t: Txn): set<nat> { set i | 0 <= i < |t| :: t[i].lba }

  lemma RecordReads(c: Codec, js: nat, size: nat, t: Txn)
    requires Lawful(c) && TxnOk(js, size, t)
    ensures c.read(c.write(RecordOf(c, t))) == Some(RecordOf(c, t))
  {
    assert Fits(RecordOf(c, t));
  }

  // --- landing writes ---

  lemma {:induction false} LandElsewhere(img: seq<Block>, ws: seq<Write>, l: nat)
    requires l < |img| && forall i :: 0 <= i < |ws| ==> ws[i].lba != l
    ensures Land(img, ws)[l] == img[l]
  {
    if ws != [] { LandElsewhere(img, ws[..|ws| - 1], l); }
  }

  lemma {:induction false} LandAt(img: seq<Block>, ws: seq<Write>, k: nat)
    requires k < |ws| && ws[k].lba < |img|
    requires forall j :: k < j < |ws| ==> ws[j].lba != ws[k].lba
    ensures Land(img, ws)[ws[k].lba] == ws[k].blk
  {
    if k < |ws| - 1 { LandAt(img, ws[..|ws| - 1], k); }
  }

  /** A landed transaction: its blocks at home, every other block as it was. */
  lemma LandTxn(js: nat, img: seq<Block>, t: Txn)
    requires TxnOk(js, |img|, t)
    ensures forall i :: 0 <= i < |t| ==> Land(img, t)[t[i].lba] == t[i].blk
    ensures forall l :: 0 <= l < |img| && (forall i :: 0 <= i < |t| ==> t[i].lba != l) ==> Land(img, t)[l] == img[l]
  {
    forall i | 0 <= i < |t| ensures Land(img, t)[t[i].lba] == t[i].blk { LandAt(img, t, i); }
    forall l | 0 <= l < |img| && (forall i :: 0 <= i < |t| ==> t[i].lba != l)
      ensures Land(img, t)[l] == img[l]
    {
      LandElsewhere(img, t, l);
    }
  }

  /** Landing a transaction forgets what its own blocks held before. */
  lemma LandOver(js: nat, a: seq<Block>, b: seq<Block>, t: Txn, free: set<nat>)
    requires TxnOk(js, |a|, t) && |a| == |b|
    requires forall l ::
               0 <= l < |a| && !InJournal(js, l) && l !in free && (forall i :: 0 <= i < |t| ==> t[i].lba != l) ==>
               a[l] == b[l]
    ensures SameHome(js, free, Land(a, t), Land(b, t))
  {
    LandTxn(js, a, t);
    LandTxn(js, b, t);
    forall l | 0 <= l < |a| && !InJournal(js, l) && l !in free ensures Land(a, t)[l] == Land(b, t)[l] {
      if i :| 0 <= i < |t| && t[i].lba == l {
        assert Land(a, t)[t[i].lba] == t[i].blk == Land(b, t)[t[i].lba];
      }
    }
  }

  // --- the states a disk can be in ---

  /** A record that, if replayed, would change nothing outside `free`: its blocks are already home in `h`. */
  ghost predicate Settled(c: Codec, js: nat, rec: CommitRecord, h: seq<Block>, ps: set<seq<Block>>, free: set<nat>) {
    && |rec.homes| <= TXN_CAP
    && (forall i :: 0 <= i < |rec.homes| ==>
          rec.homes[i] < |h| && rec.homes[i] < LBA_LIMIT && !InJournal(js, rec.homes[i]))
    && (forall i, j :: 0 <= i < j < |rec.homes| ==> rec.homes[i] != rec.homes[j])
    && forall p :: p in ps && |p| == |rec.homes| && c.sum(p) == rec.sum ==>
         forall i :: 0 <= i < |p| && rec.homes[i] !in free ==> p[i] == h[rec.homes[i]]
  }

  /** A write that can be in flight on a quiet disk: into the journal but no record, or to a free block. */
  predicate Harmless(c: Codec, js: nat, w: Write, free: set<nat>) {
    if InJournal(js, w.lba) then w.lba == js ==> c.read(w.blk).None? else w.lba in free
  }

  /** Home is `h` on the medium but for the blocks of `free`; only they and journal blocks are in flight,
      and no record among them. */
  ghost predicate Calm(c: Codec, js: nat, d: Disk, h: seq<Block>, ps: set<seq<Block>>, free: set<nat>) {
    && js + JOURNAL_BLOCKS <= |d.medium|
    && SameHome(js, free, d.medium, h)
    && Seen(js, d.medium, ps)
    && (forall i :: 0 <= i < |d.cache| ==> Harmless(c, js, d.cache[i], free))
  }

  /** A calm disk whose record, if it has one, is settled. */
  ghost predicate Quiet(c: Codec, js: nat, d: Disk, h: seq<Block>, ps: set<seq<Block>>, free: set<nat>) {
    && Calm(c, js, d, h, ps, free)
    && (c.read(d.medium[js]).Some? ==> Settled(c, js, c.read(d.medium[js]).value, h, ps, free))
  }

  /** A calm disk with a record that may not be settled, asleep over a payload that does not check. */
  ghost predicate Dormant(c: Codec, js: nat, d: Disk, h: seq<Block>, ps: set<seq<Block>>, free: set<nat>) {
    Calm(c, js, d, h, ps, free) && Found(c, js, d.medium).None?
  }

  /** A disk between transactions. */
  ghost predicate Idle(c: Codec, js: nat, d: Disk, h: seq<Block>, ps: set<seq<Block>>, free: set<nat>, asleep: bool) {
    if asleep then Dormant(c, js, d, h, ps, free) else Quiet(c, js, d, h, ps, free)
  }

  /** The record of `t` and its payload are on the medium; outside `free` only the homes of `t` may differ
      from `h`, and only its own writes are in flight. */
  ghost predicate Committed(c: Codec, js: nat, d: Disk, h: seq<Block>, t: Txn, ps: set<seq<Block>>, free: set<nat>) {
    && js + JOURNAL_BLOCKS <= |d.medium| == |h|
    && TxnOk(js, |h|, t)
    && Seen(js, d.medium, ps)
    && c.read(d.medium[js]) == Some(RecordOf(c, t))
    && d.medium[js + 1..js + 1 + |t|] == Blocks(t)
    && (forall l :: 0 <= l < |h| && !InJournal(js, l) && l !in free && (forall i :: 0 <= i < |t| ==> t[i].lba != l) ==>
          d.medium[l] == h[l])
    && (forall i :: 0 <= i < |d.cache| ==>
          d.cache[i] in t || (d.cache[i].lba in free && !InJournal(js, d.cache[i].lba)))
  }

  /** A power cut on a calm disk leaves it calm. */
  lemma CalmSurvives(c: Codec, js: nat, d: Disk, h: seq<Block>, ps: set<seq<Block>>, img: seq<Block>, free: set<nat>)
    requires Calm(c, js, d, h, ps, free) && PowerCut(c, js, d, img) && Seen(js, img, ps)
    ensures Calm(c, js, Disk(img, []), h, ps, free)
    ensures c.read(img[js]).None? || img[js] == d.medium[js]
  {
    forall l | 0 <= l < |img| && !InJournal(js, l) && l !in free ensures img[l] == h[l] {}
  }

  /** A power cut on a quiet disk recovers to its home. */
  lemma QuietSurvives(c: Codec, js: nat, d: Disk, h: seq<Block>, ps: set<seq<Block>>, img: seq<Block>, free: set<nat>)
    requires Quiet(c, js, d, h, ps, free) && PowerCut(c, js, d, img) && Seen(js, img, ps)
    ensures SameHome(js, free, Recovered(c, js, img), h)
    ensures Quiet(c, js, Disk(img, []), h, ps, free)
  {
    CalmSurvives(c, js, d, h, ps, img, free);
    QuietReplay(c, js, img, h, ps, free);
  }

  /** Replaying what a quiet image holds changes no home block. */
  lemma QuietReplay(c: Codec, js: nat, img: seq<Block>, h: seq<Block>, ps: set<seq<Block>>, free: set<nat>)
    requires Quiet(c, js, Disk(img, []), h, ps, free)
    ensures SameHome(js, free, Recovered(c, js, img), h)
    ensures Found(c, js, img).Some? ==> forall i :: 0 <= i < |Found(c, js, img).value| ==>
              var w := Found(c, js, img).value[i];
              w.lba < |h| && !InJournal(js, w.lba) && (w.lba in free || w.blk == h[w.lba])
  {
    if Found(c, js, img).Some? {
      var rec := c.read(img[js]).value;
      var n := |rec.homes|;
      var p := img[js + 1..js + 1 + n];
      assert p == Payload(js, img, n);
      var t := Found(c, js, img).value;
      forall i | 0 <= i < |t|
        ensures t[i].lba < |h| && !InJournal(js, t[i].lba) && (t[i].lba in free || t[i].blk == h[t[i].lba])
      {
        assert t[i].blk == p[i];
      }
      LandNothing(js, img, t, h, free);
    }
  }

  lemma {:induction false} LandNothing(js: nat, img: seq<Block>, ws: seq<Write>, h: seq<Block>, free: set<nat>)
    requires SameHome(js, free, img, h)
    requires forall i :: 0 <= i < |ws| ==> ws[i].lba < |h| && (ws[i].lba in free || ws[i].blk == h[ws[i].lba])
    ensures SameHome(js, free, Land(img, ws), h)
  {
    if ws != [] { LandNothing(js, img, ws[..|ws| - 1], h, free); }
  }

  /** A live record over its own payload is found as the transaction it was written for. */
  lemma FoundPayload(c: Codec, js: nat, img: seq<Block>, t: Txn)
    requires js + JOURNAL_BLOCKS <= |img| && 1 <= |t| <= TXN_CAP
    requires c.read(img[js]) == Some(RecordOf(c, t)) && img[js + 1..js + 1 + |t|] == Blocks(t)
    ensures Found(c, js, img) == Some(t)
  {
    var found := Found(c, js, img).value;
    forall i | 0 <= i < |t| ensures found[i] == t[i] {
      assert img[js + 1..js + 1 + |t|][i] == Blocks(t)[i];
    }
    assert found == t;
  }

  /** A power cut on a committed disk recovers to the home with the transaction applied. */
  lemma CommittedSurvives(c: Codec, js: nat, d: Disk, h: seq<Block>, t: Txn, ps: set<seq<Block>>, img: seq<Block>,
      free: set<nat>)
    requires Lawful(c) && Committed(c, js, d, h, t, ps, free) && PowerCut(c, js, d, img) && Seen(js, img, ps)
    ensures Found(c, js, img) == Some(t)
    ensures SameHome(js, free, Recovered(c, js, img), Land(h, t))
    ensures Committed(c, js, Disk(img, []), h, t, ps, free)
  {
    forall l | 0 <= l < |img| && img[l] != d.medium[l]
      ensures (l in free && !InJournal(js, l)) || exists i :: 0 <= i < |t| && t[i].lba == l
    {
      var k :| 0 <= k < |d.cache| && d.cache[k].lba == l;
      if d.cache[k] in t {
        var i :| 0 <= i < |t| && t[i] == d.cache[k];
      }
    }
    assert img[js + 1..js + 1 + |t|] == d.medium[js + 1..js + 1 + |t|];
    FoundPayload(c, js, img, t);
    LandOver(js, img, h, t, free);
  }

  // --- running the operations ---

  lemma {:induction false} RunConcat(d: Disk, a: seq<Op>, b: seq<Op>)
    ensures Run(d, a + b) == Run(Run(d, a), b)
  {
    if b == [] {
      assert a + b == a;
    } else {
      assert (a + b)[..|a + b| - 1] == a + b[..|b| - 1];
      RunConcat(d, a, b[..|b| - 1]);
    }
  }

  lemma RunOne(d: Disk, op: Op)
    ensures Run(d, [op]) == Exec(d, op)
  {
    assert [op][..0] == [];
  }

  lemma LandOne(img: seq<Block>, w: Write)
    ensures Land(img, [w]) == Put(img, w)
  {
    assert [w][..0] == [];
  }

  lemma {:induction false} LandConcat(img: seq<Block>, a: seq<Write>, b: seq<Write>)
    ensures Land(img, a + b) == Land(Land(img, a), b)
  {
    if b == [] {
      assert a + b == a;
    } else {
      assert (a + b)[..|a + b| - 1] == a + b[..|b| - 1];
      LandConcat(img, a, b[..|b| - 1]);
    }
  }

  lemma {:induction false} RunSize(d: Disk, ops: seq<Op>)
    ensures |Run(d, ops).medium| == |d.medium|
  {
    if ops != [] { RunSize(d, ops[..|ops| - 1]); }
  }

  /** Stores only fill the cache. */
  lemma {:induction false} RunStores(d: Disk, ws: seq<Write>)
    ensures Run(d, Stores(ws)) == Disk(d.medium, d.cache + ws)
  {
    if ws == [] {
      assert d.cache + ws == d.cache;
    } else {
      var init, w := ws[..|ws| - 1], ws[|ws| - 1];
      RunStores(d, init);
      assert Stores(ws)[..|ws| - 1] == Stores(init);
      assert d.cache + init + [w] == d.cache + ws;
    }
  }

  lemma RunStoresPrefix(d: Disk, ws: seq<Write>, k: nat)
    requires k <= |ws|
    ensures Run(d, Stores(ws)[..k]) == Disk(d.medium, d.cache + ws[..k])
  {
    assert Stores(ws)[..k] == Stores(ws[..k]);
    RunStores(d, ws[..k]);
  }

  /** Staging keeps a calm disk calm, however far it gets. */
  lemma Staging(c: Codec, js: nat, d: Disk, h: seq<Block>, t: Txn, ps: set<seq<Block>>, k: nat, free: set<nat>)
    requires Calm(c, js, d, h, ps, free) && TxnOk(js, |h|, t) && k <= |t|
    ensures Calm(c, js, Run(d, StageOps(js, t)[..k]), h, ps, free)
    ensures Run(d, StageOps(js, t)[..k]).medium == d.medium
  {
    var ws := StageWrites(js, t)[..k];
    RunStoresPrefix(d, StageWrites(js, t), k);
    var s := Disk(d.medium, d.cache + ws);
    forall i | 0 <= i < |s.cache|
      ensures Harmless(c, js, s.cache[i], free)
    {
      if i >= |d.cache| { assert s.cache[i] == ws[i - |d.cache|]; }
    }
  }

  /** What harmless writes leave alone: every home block but the free ones, and a record that fails. */
  lemma {:induction false} LandJournal(c: Codec, js: nat, medium: seq<Block>, ws: seq<Write>, free: set<nat>)
    requires js < |medium|
    requires forall i :: 0 <= i < |ws| ==> Harmless(c, js, ws[i], free)
    ensures SameHome(js, free, Land(medium, ws), medium)
    ensures c.read(Land(medium, ws)[js]).None? || Land(medium, ws)[js] == medium[js]
  {
    if ws != [] {
      var w := ws[|ws| - 1];
      LandJournal(c, js, medium, ws[..|ws| - 1], free);
      assert Harmless(c, js, w, free);
    }
  }

  lemma LandCalm(c: Codec, js: nat, medium: seq<Block>, ws: seq<Write>, h: seq<Block>, ps: set<seq<Block>>,
      free: set<nat>)
    requires Calm(c, js, Disk(medium, ws), h, ps, free) && Seen(js, Land(medium, ws), ps)
    ensures Calm(c, js, Disk(Land(medium, ws), []), h, ps, free)
    ensures c.read(Land(medium, ws)[js]).None? || Land(medium, ws)[js] == medium[js]
  {
    LandJournal(c, js, medium, ws, free);
  }

  /** A barrier on a quiet disk leaves it quiet. */
  lemma LandQuiet(c: Codec, js: nat, medium: seq<Block>, ws: seq<Write>, h: seq<Block>, ps: set<seq<Block>>,
      free: set<nat>)
    requires Quiet(c, js, Disk(medium, ws), h, ps, free) && Seen(js, Land(medium, ws), ps)
    ensures Quiet(c, js, Disk(Land(medium, ws), []), h, ps, free)
  {
    LandCalm(c, js, medium, ws, h, ps, free);
  }

  /** Images that agree on the journal are read with the same payloads. */
  lemma SeenElsewhere(js: nat, a: seq<Block>, b: seq<Block>, ps: set<seq<Block>>)
    requires Seen(js, a, ps) && |a| == |b| && forall l :: js < l <= js + TXN_CAP ==> a[l] == b[l]
    ensures Seen(js, b, ps)
  {
    forall n | 0 <= n <= TXN_CAP
      ensures Payload(js, b, n) in ps
    {
      assert Payload(js, b, n) == Payload(js, a, n);
    }
  }

  /** A transaction that can be committed on this disk, with what staging it will leave in the journal
      among the payloads. */
  predicate Ready(js: nat, d: Disk, t: Txn, ps: set<seq<Block>>) {
    TxnOk(js, |d.medium|, t) && Seen(js, Land(View(d), StageWrites(js, t)), ps)
  }

  lemma StageAt(js: nat, t: Txn, i: nat)
    requires i < |t|
    ensures StageWrites(js, t)[i] == Write(js + 1 + i, t[i].blk)
  {
  }

  /** Staged blocks land side by side, each under none that comes after it. */
  lemma {:induction false} PayloadLandsAt(js: nat, img: seq<Block>, t: Txn, m: nat, i: nat)
    requires js + 1 + |t| <= |img| && i < m <= |t|
    ensures Land(img, StageWrites(js, t)[..m])[js + 1 + i] == t[i].blk
  {
    var ws := StageWrites(js, t);
    StageAt(js, t, m - 1);
    assert ws[..m][..m - 1] == ws[..m - 1];
    if i < m - 1 { PayloadLandsAt(js, img, t, m - 1, i); }
  }

  lemma PayloadLands(js: nat, img: seq<Block>, t: Txn)
    requires js + 1 + |t| <= |img|
    ensures Land(img, StageWrites(js, t))[js + 1..js + 1 + |t|] == Blocks(t)
  {
    var after := Land(img, StageWrites(js, t));
    var part := after[js + 1..js + 1 + |t|];
    assert StageWrites(js, t)[..|t|] == StageWrites(js, t);
    forall i | 0 <= i < |t| ensures part[i] == Blocks(t)[i] {
      PayloadLandsAt(js, img, t, |t|, i);
      assert part[i] == after[js + 1 + i];
    }
  }

  lemma RunStaged(js: nat, d: Disk, t: Txn)
    ensures Run(d, StageOps(js, t) + [Barrier]) == Disk(Land(View(d), StageWrites(js, t)), [])
    ensures Run(d, StageOps(js, t) + [Barrier]) == Exec(Run(d, StageOps(js, t)), Barrier)
  {
    var ops := StageOps(js, t);
    RunStores(d, StageWrites(js, t));
    RunConcat(d, ops, [Barrier]);
    RunOne(Run(d, ops), Barrier);
    LandConcat(d.medium, d.cache, StageWrites(js, t));
  }

  /** After staging and the first barrier the payload is on the medium and home is untouched. */
  lemma Staged(c: Codec, js: nat, d: Disk, h: seq<Block>, t: Txn, ps: set<seq<Block>>, free: set<nat>)
    requires Calm(c, js, d, h, ps, free) && Ready(js, d, t, ps)
    ensures var s := Run(d, StageOps(js, t) + [Barrier]);
            && Calm(c, js, s, h, ps, free) && s.cache == [] && s.medium[js + 1..js + 1 + |t|] == Blocks(t)
            && (c.read(s.medium[js]).None? || s.medium[js] == d.medium[js])
  {
    assert StageOps(js, t)[..|t|] == StageOps(js, t);
    Staging(c, js, d, h, t, ps, |t|, free);
    RunStaged(js, d, t);
    var s := Run(d, StageOps(js, t));
    LandCalm(c, js, s.medium, s.cache, h, ps, free);
    PayloadLands(js, View(d), t);
  }

  /** The record in flight over a staged payload: the cut decides between all and nothing. */
  lemma RecordInFlight(c: Codec, js: nat, s: Disk, h: seq<Block>, t: Txn, ps: set<seq<Block>>, img: seq<Block>,
      free: set<nat>)
    requires Lawful(c) && TxnOk(js, |h|, t) && Seen(js, img, ps)
    requires Calm(c, js, s, h, ps, free) && s.cache == [] && s.medium[js + 1..js + 1 + |t|] == Blocks(t)
    requires PowerCut(c, js, Exec(s, Store(Write(js, c.write(RecordOf(c, t))))), img)
    ensures if img[js] == c.write(RecordOf(c, t)) then Committed(c, js, Disk(img, []), h, t, ps, free - HomeSet(t))
            else Calm(c, js, Disk(img, []), h, ps, free) && (c.read(img[js]).None? || img[js] == s.medium[js])
  {
    var rec := c.write(RecordOf(c, t));
    RecordReads(c, js, |h|, t);
    var d := Exec(s, Store(Write(js, rec)));
    assert d.cache == [Write(js, rec)];
    forall l | 0 <= l < |img| && l != js ensures img[l] == s.medium[l] {
      assert !Pending(d, l);
    }
    assert img[js + 1..js + 1 + |t|] == s.medium[js + 1..js + 1 + |t|];
  }

  /** The second barrier commits. */
  lemma RecordLanded(c: Codec, js: nat, s: Disk, h: seq<Block>, t: Txn, ps: set<seq<Block>>, free: set<nat>)
    requires Lawful(c) && TxnOk(js, |h|, t)
    requires Calm(c, js, s, h, ps, free) && s.cache == [] && s.medium[js + 1..js + 1 + |t|] == Blocks(t)
    ensures var d := Run(s, [Store(Write(js, c.write(RecordOf(c, t)))), Barrier]);
            Committed(c, js, d, h, t, ps, free - HomeSet(t)) && d.cache == []
  {
    var w := Write(js, c.write(RecordOf(c, t)));
    RunOne(s, Store(w));
    RunConcat(s, [Store(w)], [Barrier]);
    RunOne(Run(s, [Store(w)]), Barrier);
    assert [Store(w)] + [Barrier] == [Store(w), Barrier];
    assert s.cache + [w] == [w];
    LandOne(s.medium, w);
    RecordReads(c, js, |h|, t);
    var rec := w.blk;
    var img := s.medium[js := rec];
    assert img[js + 1..js + 1 + |t|] == s.medium[js + 1..js + 1 + |t|];
    SeenElsewhere(js, s.medium, img, ps);
  }

  /** The checkpoint keeps a committed disk committed, however far it gets. */
  lemma Checkpointing(c: Codec, js: nat, d: Disk, h: seq<Block>, t: Txn, ps: set<seq<Block>>, k: nat, free: set<nat>)
    requires Committed(c, js, d, h, t, ps, free) && d.cache == [] && k <= |t|
    ensures Committed(c, js, Run(d, HomeOps(t)[..k]), h, t, ps, free)
    ensures Run(d, HomeOps(t)[..k]) == Disk(d.medium, t[..k])
  {
    RunStoresPrefix(d, t, k);
    assert [] + t[..k] == t[..k];
  }

  /** Once the homes are on the medium the disk is quiet again, with the transaction applied. */
  lemma Checkpointed(c: Codec, js: nat, d: Disk, h: seq<Block>, t: Txn, ps: set<seq<Block>>, free: set<nat>)
    requires Lawful(c) && Discriminates(c, ps) && Committed(c, js, d, h, t, ps, free) && d.cache == []
    ensures Quiet(c, js, Disk(Land(d.medium, t), []), Land(h, t), ps, free)
  {
    var img := Land(d.medium, t);
    LandTxn(js, d.medium, t);
    LandTxn(js, h, t);
    LandOver(js, d.medium, h, t, free);
    assert img[js] == d.medium[js];
    SeenElsewhere(js, d.medium, img, ps);
    var rec := RecordOf(c, t);
    assert Payload(js, d.medium, |t|) == Blocks(t);
    forall p | p in ps && |p| == |rec.homes| && c.sum(p) == rec.sum
      ensures forall i :: 0 <= i < |p| ==> p[i] == Land(h, t)[rec.homes[i]]
    {
      assert p == Blocks(t);
    }
  }
}
