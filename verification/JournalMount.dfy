/** Mounting, and the windows in which a live record is not safe: `recover` and the stretch from a refused
    last flush to the next commit (services/fs/src/main.rs). */
module JournalMount {
  import opened Text
  import opened Journal
  import opened JournalCommit

  // --- replaying ---

  /** Replay cut short before the record is invalidated: the next mount replays to the same home. */
  lemma ReplayIsRestartable(c: Codec, js: nat, d: Disk, h: seq<Block>, t: Txn, ps: set<seq<Block>>, k: nat,
      img: seq<Block>, free: set<nat>)
    requires Lawful(c) && Committed(c, js, d, h, t, ps, free) && d.cache == []
    requires k <= |t| && PowerCut(c, js, Run(d, ReplayOps(c, js, d.medium)[..k]), img) && Seen(js, img, ps)
    ensures js + JOURNAL_BLOCKS <= |img| && SameHome(js, free, Recovered(c, js, img), Land(h, t))
    ensures Committed(c, js, Disk(img, []), h, t, ps, free)
  {
    assert PowerCut(c, js, d, d.medium);
    CommittedSurvives(c, js, d, h, t, ps, d.medium, free);
    assert ReplayOps(c, js, d.medium)[..k] == HomeOps(t)[..k];
    Checkpointing(c, js, d, h, t, ps, k, free);
    CommittedSurvives(c, js, Run(d, HomeOps(t)[..k]), h, t, ps, img, free);
  }

  /** The whole replay of a committed disk, before and after its cache reaches the medium. */
  lemma ReplayRuns(c: Codec, js: nat, d: Disk, h: seq<Block>, t: Txn, ps: set<seq<Block>>, free: set<nat>)
    requires Lawful(c) && Committed(c, js, d, h, t, ps, free) && d.cache == []
    ensures Run(d, ReplayOps(c, js, d.medium)) == Disk(d.medium, t + [Write(js, c.blank)])
  {
    assert PowerCut(c, js, d, d.medium);
    CommittedSurvives(c, js, d, h, t, ps, d.medium, free);
    Checkpointing(c, js, d, h, t, ps, |t|, free);
    assert HomeOps(t)[..|t|] == HomeOps(t) && t[..|t|] == t;
    RunConcat(d, HomeOps(t), [Store(Write(js, c.blank))]);
    RunOne(Run(d, HomeOps(t)), Store(Write(js, c.blank)));
  }

  /** `recover` issues the invalidation behind the home writes with no barrier between them. A disk
      free to reorder can land it alone, and the committed transaction is then gone for good. */
  lemma ReplayWindow(c: Codec, js: nat, d: Disk, h: seq<Block>, t: Txn, ps: set<seq<Block>>, i: nat,
      free: set<nat>) returns (img: seq<Block>)
    requires Lawful(c) && Committed(c, js, d, h, t, ps, free) && d.cache == []
    requires i < |t| && d.medium[t[i].lba] != t[i].blk
    ensures var s := Run(d, ReplayOps(c, js, d.medium)); PowerCut(c, js, s, img) && WholeSectors(s, img)
    ensures js + JOURNAL_BLOCKS <= |img| && !SameHome(js, free - HomeSet(t), Recovered(c, js, img), Land(h, t))
  {
    ReplayRuns(c, js, d, h, t, ps, free);
    var s := Disk(d.medium, t + [Write(js, c.blank)]);
    img := d.medium[js := c.blank];
    assert s.cache[|t|] == Write(js, c.blank);
    forall l | 0 <= l < |img| && img[l] != d.medium[l] ensures l == js && Pending(s, l) {}
    assert Found(c, js, img).None?;
    LandTxn(js, h, t);
    assert img[t[i].lba] == d.medium[t[i].lba];
  }

  /** Exactly when a cut right after a replay is harmless on a disk that tears no sector: when every
      block of the transaction was already home before the replay began. */
  lemma ReplayWindowExact(c: Codec, js: nat, d: Disk, h: seq<Block>, t: Txn, ps: set<seq<Block>>, free: set<nat>)
    requires Lawful(c) && Committed(c, js, d, h, t, ps, free) && d.cache == []
    ensures (forall img | PowerCut(c, js, Run(d, ReplayOps(c, js, d.medium)), img)
                       && WholeSectors(Run(d, ReplayOps(c, js, d.medium)), img) ::
               js + JOURNAL_BLOCKS <= |img| && SameHome(js, free - HomeSet(t), Recovered(c, js, img), Land(h, t)))
        <==> (forall i :: 0 <= i < |t| ==> d.medium[t[i].lba] == t[i].blk)
  {
    var s := Run(d, ReplayOps(c, js, d.medium));
    ReplayRuns(c, js, d, h, t, ps, free);
    if forall i :: 0 <= i < |t| ==> d.medium[t[i].lba] == t[i].blk {
      forall img | PowerCut(c, js, s, img) && WholeSectors(s, img)
        ensures js + JOURNAL_BLOCKS <= |img| && SameHome(js, free - HomeSet(t), Recovered(c, js, img), Land(h, t))
      {
        ReplayHarmless(c, js, d, h, t, ps, img, free);
      }
    } else {
      var i :| 0 <= i < |t| && d.medium[t[i].lba] != t[i].blk;
      var img := ReplayWindow(c, js, d, h, t, ps, i, free);
    }
  }

  lemma ReplayHarmless(c: Codec, js: nat, d: Disk, h: seq<Block>, t: Txn, ps: set<seq<Block>>, img: seq<Block>,
      free: set<nat>)
    requires Lawful(c) && Committed(c, js, d, h, t, ps, free) && d.cache == []
    requires forall i :: 0 <= i < |t| ==> d.medium[t[i].lba] == t[i].blk
    requires WholeSectors(Disk(d.medium, t + [Write(js, c.blank)]), img)
    ensures js + JOURNAL_BLOCKS <= |img| && SameHome(js, free - HomeSet(t), Recovered(c, js, img), Land(h, t))
  {
    var s := Disk(d.medium, t + [Write(js, c.blank)]);
    assert forall i :: 0 <= i < |t| ==> s.cache[i] == t[i];
    forall l | 0 <= l < |img| && l != js ensures img[l] == d.medium[l] {}
    LandTxn(js, h, t);
    assert SameHome(js, free - HomeSet(t), img, Land(h, t));
    if img[js] == d.medium[js] {
      assert img == d.medium;
      assert PowerCut(c, js, d, img);
      CommittedSurvives(c, js, d, h, t, ps, img, free - HomeSet(t));
    } else {
      var i :| 0 <= i < |s.cache| && s.cache[i] == Write(js, img[js]);
      assert i == |t|;
    }
  }

  /** With the homes on the medium first, as after any later barrier, nothing can be lost. */
  lemma ReplaySettles(c: Codec, js: nat, d: Disk, h: seq<Block>, t: Txn, ps: set<seq<Block>>, free: set<nat>)
    requires Lawful(c) && Discriminates(c, ps) && Committed(c, js, d, h, t, ps, free) && d.cache == []
    ensures Quiet(c, js, Exec(Run(d, ReplayOps(c, js, d.medium)), Barrier), Land(h, t), ps, free)
  {
    ReplayRuns(c, js, d, h, t, ps, free);
    Checkpointed(c, js, d, h, t, ps, free);
    var w := Write(js, c.blank);
    assert (t + [w])[..|t|] == t;
    QuietWithBlank(c, js, Disk(Land(d.medium, t), []), Land(h, t), ps, free);
    LandQuiet(c, js, Land(d.medium, t), [w], Land(h, t), ps, free);
    LandOne(Land(d.medium, t), w);
    assert [] + [w] == [w];
  }

  // --- a commit held by a refused last flush ---

  /** Every block of the transaction is on the medium at home. */
  predicate AllHome(medium: seq<Block>, t: Txn) {
    forall i :: 0 <= i < |t| ==> t[i].lba < |medium| && medium[t[i].lba] == t[i].blk
  }

  /** The first `k` blocks staged for `u` are those of `t`, as far as both go. */
  predicate Agrees(t: Txn, u: Txn, k: nat) {
    forall j :: 0 <= j < k && j < |t| && j < |u| ==> u[j].blk == t[j].blk
  }

  lemma RunStaging(c: Codec, js: nat, d: Disk, u: Txn, k: nat)
    requires k <= |u|
    ensures Run(d, StageOps(js, u)[..k]) == Disk(d.medium, d.cache + StageWrites(js, u)[..k])
  {
    RunStoresPrefix(d, StageWrites(js, u), k);
  }

  /** What a block can be after a cut into staging that tears no sector. */
  lemma StagingSector(js: nat, d: Disk, u: Txn, k: nat, img: seq<Block>, l: nat)
    requires k <= |u| && WholeSectors(Disk(d.medium, d.cache + StageWrites(js, u)[..k]), img) && l < |img|
    ensures || img[l] == d.medium[l]
            || (exists i :: 0 <= i < |d.cache| && d.cache[i] == Write(l, img[l]))
            || (js < l <= js + k && img[l] == u[l - js - 1].blk)
  {
    var s := Disk(d.medium, d.cache + StageWrites(js, u)[..k]);
    if img[l] != d.medium[l] {
      var i :| 0 <= i < |s.cache| && s.cache[i] == Write(l, img[l]);
      if i < |d.cache| {
        assert d.cache[i] == Write(l, img[l]);
      } else {
        assert s.cache[i] == StageWrites(js, u)[i - |d.cache|];
      }
    }
  }

  /** And a payload block, with nothing else in flight into the journal. */
  lemma StagingPayload(js: nat, d: Disk, u: Txn, k: nat, img: seq<Block>, j: nat)
    requires k <= |u| && WholeSectors(Disk(d.medium, d.cache + StageWrites(js, u)[..k]), img)
    requires js + JOURNAL_BLOCKS <= |img| && j < TXN_CAP
    requires forall i :: 0 <= i < |d.cache| ==> !InJournal(js, d.cache[i].lba)
    ensures img[js + 1 + j] == d.medium[js + 1 + j] || (j < k && img[js + 1 + j] == u[j].blk)
  {
    StagingSector(js, d, u, k, img, js + 1 + j);
  }

  /** Outside the journal such a cut leaves what a cut before staging could have left. */
  lemma StagingHome(c: Codec, js: nat, d: Disk, h: seq<Block>, t: Txn, ps: set<seq<Block>>, free: set<nat>, u: Txn,
      k: nat, img: seq<Block>)
    requires Committed(c, js, d, h, t, ps, free) && k <= |u| <= TXN_CAP
    requires WholeSectors(Disk(d.medium, d.cache + StageWrites(js, u)[..k]), img)
    ensures |img| == |h| && img[js] == d.medium[js]
    ensures forall l ::
              0 <= l < |h| && !InJournal(js, l) && l !in free && (forall i :: 0 <= i < |t| ==> t[i].lba != l) ==>
              img[l] == h[l]
    ensures forall i :: 0 <= i < |t| && t[i].lba !in free ==>
        img[t[i].lba] == d.medium[t[i].lba] || img[t[i].lba] == t[i].blk
  {
    forall l | 0 <= l < |h| && (l == js || !InJournal(js, l)) && l !in free
      ensures img[l] == d.medium[l] || exists i :: 0 <= i < |t| && t[i] == Write(l, img[l])
    {
      StagingSector(js, d, u, k, img, l);
      if i :| 0 <= i < |d.cache| && d.cache[i] == Write(l, img[l]) {
        assert d.cache[i] in t;
      }
    }
    if js in free { StagingSector(js, d, u, k, img, js); }
  }

  /** Staging that repeats the held payload leaves the record over it. */
  lemma RepeatedPayloadHolds(c: Codec, js: nat, d: Disk, h: seq<Block>, t: Txn, ps: set<seq<Block>>, free: set<nat>,
      u: Txn, k: nat, img: seq<Block>)
    requires Committed(c, js, d, h, t, ps, free) && k <= |u| <= TXN_CAP && Agrees(t, u, k) && Seen(js, img, ps)
    requires WholeSectors(Disk(d.medium, d.cache + StageWrites(js, u)[..k]), img)
    ensures Committed(c, js, Disk(img, []), h, t, ps, free)
  {
    StagingHome(c, js, d, h, t, ps, free, u, k, img);
    var was, part := d.medium[js + 1..js + 1 + |t|], img[js + 1..js + 1 + |t|];
    assert forall i :: 0 <= i < |d.cache| ==> !InJournal(js, d.cache[i].lba);
    forall j | 0 <= j < |t| ensures part[j] == Blocks(t)[j] {
      assert was[j] == Blocks(t)[j] && was[j] == d.medium[js + 1 + j];
      StagingPayload(js, d, u, k, img, j);
    }
  }

  /** With every block home already the record is settled, whatever is staged over its payload. */
  lemma HomeAlreadyHolds(c: Codec, js: nat, d: Disk, h: seq<Block>, t: Txn, ps: set<seq<Block>>, free: set<nat>, u: Txn,
                         k: nat, img: seq<Block>)
    requires Discriminates(c, ps) && Committed(c, js, d, h, t, ps, free) && k <= |u| <= TXN_CAP && AllHome(d.medium, t)
    requires HomeSet(t) !! free && Seen(js, img, ps)
    requires WholeSectors(Disk(d.medium, d.cache + StageWrites(js, u)[..k]), img)
    ensures Quiet(c, js, Disk(img, []), Land(h, t), ps, free)
  {
    StagingHome(c, js, d, h, t, ps, free, u, k, img);
    LandTxn(js, h, t);
    forall i | 0 <= i < |t| ensures img[t[i].lba] == t[i].blk { assert t[i].lba in HomeSet(t); }
    forall l | 0 <= l < |h| && !InJournal(js, l) && l !in free ensures img[l] == Land(h, t)[l] {
      if i :| 0 <= i < |t| && t[i].lba == l { assert img[t[i].lba] == t[i].blk; }
    }
    var r := RecordOf(c, t);
    assert Payload(js, d.medium, |t|) == Blocks(t);
    forall p | p in ps && |p| == |r.homes| && c.sum(p) == r.sum
      ensures forall i :: 0 <= i < |p| ==> p[i] == Land(h, t)[r.homes[i]]
    {
      assert p == Blocks(t);
    }
  }

  /** The cut is one the held transaction lives through. */
  predicate HeldSafe(medium: seq<Block>, t: Txn, u: Txn, k: nat) { AllHome(medium, t) || Agrees(t, u, k) }

  lemma HeldHarmless(c: Codec, js: nat, d: Disk, h: seq<Block>, t: Txn, ps: set<seq<Block>>, free: set<nat>, u: Txn,
      k: nat, img: seq<Block>)
    requires Lawful(c) && Discriminates(c, ps) && Committed(c, js, d, h, t, ps, free) && HomeSet(t) !! free
    requires k <= |u| <= TXN_CAP && HeldSafe(d.medium, t, u, k) && Seen(js, img, ps)
    requires WholeSectors(Disk(d.medium, d.cache + StageWrites(js, u)[..k]), img)
    ensures ServesAfterCut(c, js, img, Land(h, t), ps, free, false)
  {
    if Agrees(t, u, k) {
      RepeatedPayloadHolds(c, js, d, h, t, ps, free, u, k, img);
      CommittedServes(c, js, h, t, ps, img, free);
    } else {
      HomeAlreadyHolds(c, js, d, h, t, ps, free, u, k, img);
      QuietReplay(c, js, img, Land(h, t), ps, free);
    }
  }

  /** One staged block over the held payload, landing alone while a block of the held transaction is not home. */
  lemma StagingOverHeldLoses(c: Codec, js: nat, d: Disk, h: seq<Block>, t: Txn, ps: set<seq<Block>>, free: set<nat>,
      u: Txn, k: nat, i: nat, j: nat)
    returns (img: seq<Block>)
    requires Lawful(c) && Discriminates(c, ps) && Committed(c, js, d, h, t, ps, free) && HomeSet(t) !! free
    requires k <= |u| <= TXN_CAP && j < k && j < |t| && u[j].blk != t[j].blk
    requires Seen(js, d.medium[js + 1 + j := u[j].blk], ps)
    requires i < |t| && d.medium[t[i].lba] != t[i].blk
    ensures img == d.medium[js + 1 + j := u[j].blk]
    ensures var s := Run(d, StageOps(js, u)[..k]); PowerCut(c, js, s, img) && WholeSectors(s, img)
    ensures !SameHome(js, free, Recovered(c, js, img), Land(h, t))
  {
    RunStaging(c, js, d, u, k);
    img := d.medium[js + 1 + j := u[j].blk];
    OneStagedLands(c, js, d, u, k, j);
    SpoiledPayload(c, js, d.medium, t, ps, j, u[j].blk);
    NotHome(js, img, h, t, free, i);
  }

  lemma OneStagedLands(c: Codec, js: nat, d: Disk, u: Txn, k: nat, j: nat)
    requires js + JOURNAL_BLOCKS <= |d.medium| && j < k <= |u| <= TXN_CAP
    ensures var s, img := Disk(d.medium, d.cache + StageWrites(js, u)[..k]), d.medium[js + 1 + j := u[j].blk];
            PowerCut(c, js, s, img) && WholeSectors(s, img)
  {
    var s := Disk(d.medium, d.cache + StageWrites(js, u)[..k]);
    StageAt(js, u, j);
    assert s.cache[|d.cache| + j] == Write(js + 1 + j, u[j].blk);
    assert Pending(s, js + 1 + j);
  }

  /** A payload with one block replaced no longer checks. */
  lemma SpoiledPayload(c: Codec, js: nat, medium: seq<Block>, t: Txn, ps: set<seq<Block>>, j: nat, b: Block)
    requires Discriminates(c, ps) && Seen(js, medium, ps) && 1 <= |t| <= TXN_CAP && j < |t| && b != t[j].blk
    requires c.read(medium[js]) == Some(RecordOf(c, t)) && medium[js + 1..js + 1 + |t|] == Blocks(t)
    requires Seen(js, medium[js + 1 + j := b], ps)
    ensures Found(c, js, medium[js + 1 + j := b]).None?
  {
    var img := medium[js + 1 + j := b];
    assert Payload(js, medium, |t|) == Blocks(t);
    var part := Payload(js, img, |t|);
    assert part == img[js + 1..js + 1 + |t|] && part[j] == b && Blocks(t)[j] == t[j].blk;
  }

  lemma NotHome(js: nat, img: seq<Block>, h: seq<Block>, t: Txn, free: set<nat>, i: nat)
    requires TxnOk(js, |h|, t) && i < |t| && |img| == |h| && img[t[i].lba] != t[i].blk && HomeSet(t) !! free
    ensures !SameHome(js, free, img, Land(h, t))
  {
    LandTxn(js, h, t);
    assert t[i].lba in HomeSet(t);
  }

  /** Exactly when a cut into the staging of the next transaction is harmless to a held one, on a disk that tears
      no sector: when every block of it was home already, or what is staged so far repeats its payload. */
  lemma StagingOverHeldExact(c: Codec, js: nat, d: Disk, h: seq<Block>, t: Txn, ps: set<seq<Block>>, free: set<nat>,
      u: Txn, k: nat)
    requires Lawful(c) && Discriminates(c, ps) && Committed(c, js, d, h, t, ps, free) && HomeSet(t) !! free
    requires k <= |u| <= TXN_CAP
    requires forall j :: 0 <= j < k && j < |t| ==> Seen(js, d.medium[js + 1 + j := u[j].blk], ps)
    ensures (forall img :: PowerCut(c, js, Run(d, StageOps(js, u)[..k]), img)
                           && WholeSectors(Run(d, StageOps(js, u)[..k]), img) && Seen(js, img, ps) ==>
               SameHome(js, free, Recovered(c, js, img), Land(h, t)))
        <==> HeldSafe(d.medium, t, u, k)
  {
    var s := Run(d, StageOps(js, u)[..k]);
    RunStaging(c, js, d, u, k);
    if HeldSafe(d.medium, t, u, k) {
      forall img | PowerCut(c, js, s, img) && WholeSectors(s, img) && Seen(js, img, ps)
        ensures SameHome(js, free, Recovered(c, js, img), Land(h, t))
      {
        HeldHarmless(c, js, d, h, t, ps, free, u, k, img);
      }
    } else {
      var i :| 0 <= i < |t| && d.medium[t[i].lba] != t[i].blk;
      var j :| 0 <= j < k && j < |t| && j < |u| && u[j].blk != t[j].blk;
      var img := StagingOverHeldLoses(c, js, d, h, t, ps, free, u, k, i, j);
    }
  }

  // --- a record asleep over a payload that does not check ---

  /** The payload of `t` can come to stand in the journal, block by block, from what is there and from the first
      `k` blocks staged for `u`. */
  predicate Completes(js: nat, medium: seq<Block>, t: Txn, u: Txn, k: nat)
    requires js + JOURNAL_BLOCKS <= |medium| && |t| <= TXN_CAP && k <= |u|
  {
    forall j :: 0 <= j < |t| ==> medium[js + 1 + j] == t[j].blk || (j < k && u[j].blk == t[j].blk)
  }

  /** The journal with the payload of `t` in it. */
  function WithPayload(js: nat, medium: seq<Block>, t: Txn): (r: seq<Block>)
    ensures |r| == |medium|
  {
    seq(|medium|, l requires 0 <= l < |medium| => if js < l <= js + |t| then t[l - js - 1].blk else medium[l])
  }

  lemma CompletedWakes(c: Codec, js: nat, d: Disk, t: Txn, u: Txn, k: nat)
    requires js + JOURNAL_BLOCKS <= |d.medium| && 1 <= |t| <= TXN_CAP && k <= |u| && Completes(js, d.medium, t, u, k)
    requires c.read(d.medium[js]) == Some(RecordOf(c, t))
    ensures var s, img := Run(d, StageOps(js, u)[..k]), WithPayload(js, d.medium, t);
            PowerCut(c, js, s, img) && WholeSectors(s, img) && Found(c, js, img) == Some(t)
  {
    RunStaging(c, js, d, u, k);
    CompletedIsCut(c, js, d, t, u, k);
    PayloadPut(js, d.medium, t);
    FoundPayload(c, js, WithPayload(js, d.medium, t), t);
  }

  lemma PayloadPut(js: nat, medium: seq<Block>, t: Txn)
    requires js + JOURNAL_BLOCKS <= |medium| && |t| <= TXN_CAP
    ensures WithPayload(js, medium, t)[js + 1..js + 1 + |t|] == Blocks(t)
    ensures WithPayload(js, medium, t)[js] == medium[js]
  {
  }

  lemma CompletedIsCut(c: Codec, js: nat, d: Disk, t: Txn, u: Txn, k: nat)
    requires js + JOURNAL_BLOCKS <= |d.medium| && 1 <= |t| <= TXN_CAP && k <= |u| && Completes(js, d.medium, t, u, k)
    ensures var s, img := Disk(d.medium, d.cache + StageWrites(js, u)[..k]), WithPayload(js, d.medium, t);
            PowerCut(c, js, s, img) && WholeSectors(s, img)
  {
    var s, img := Disk(d.medium, d.cache + StageWrites(js, u)[..k]), WithPayload(js, d.medium, t);
    forall l | 0 <= l < |img| && img[l] != d.medium[l]
      ensures js < l <= js + k && s.cache[|d.cache| + (l - js - 1)] == Write(l, img[l])
    {
      StageAt(js, u, l - js - 1);
    }
  }

  lemma WokenIsCompleted(c: Codec, js: nat, d: Disk, t: Txn, u: Txn, k: nat, img: seq<Block>)
    requires js + JOURNAL_BLOCKS <= |d.medium| && 1 <= |t| <= TXN_CAP && k <= |u| <= TXN_CAP
    requires forall i :: 0 <= i < |d.cache| ==> !InJournal(js, d.cache[i].lba)
    requires WholeSectors(Disk(d.medium, d.cache + StageWrites(js, u)[..k]), img) && Found(c, js, img) == Some(t)
    ensures Completes(js, d.medium, t, u, k)
  {
    forall j | 0 <= j < |t|
      ensures d.medium[js + 1 + j] == t[j].blk || (j < k && u[j].blk == t[j].blk)
    {
      assert t[j].blk == img[js + 1 + j];
      StagingPayload(js, d, u, k, img, j);
    }
  }

  /** A cut of this disk that tears no sector and lets `recover` find `t`. */
  ghost predicate Wakes(c: Codec, js: nat, s: Disk, img: seq<Block>, t: Txn) {
    PowerCut(c, js, s, img) && WholeSectors(s, img) && js + JOURNAL_BLOCKS <= |img| && Found(c, js, img) == Some(t)
  }

  /** Exactly which staging can wake a record: on a disk that tears no sector, some cut `k` blocks into staging
      `u` makes `recover` find `t` if and only if what is staged completes the payload of `t`. */
  lemma WakesExactly(c: Codec, js: nat, d: Disk, t: Txn, u: Txn, k: nat)
    requires js + JOURNAL_BLOCKS <= |d.medium| && 1 <= |t| <= TXN_CAP && k <= |u| <= TXN_CAP
    requires c.read(d.medium[js]) == Some(RecordOf(c, t))
    requires forall i :: 0 <= i < |d.cache| ==> !InJournal(js, d.cache[i].lba)
    ensures (exists img :: Wakes(c, js, Run(d, StageOps(js, u)[..k]), img, t)) <==> Completes(js, d.medium, t, u, k)
  {
    RunStaging(c, js, d, u, k);
    var s := Run(d, StageOps(js, u)[..k]);
    if img :| Wakes(c, js, s, img, t) {
      WokenIsCompleted(c, js, d, t, u, k, img);
    }
    if Completes(js, d.medium, t, u, k) {
      CompletedWakes(c, js, d, t, u, k);
      assert Wakes(c, js, s, WithPayload(js, d.medium, t), t);
    }
  }

  // --- data on the blocks of a live record ---

  /** Data written over a block of a record whose payload checks, and flushed, is undone by the next mount. */
  lemma LiveRecordUndoesData(c: Codec, js: nat, d: Disk, t: Txn, w: Write, i: nat)
    requires TxnOk(js, |d.medium|, t) && js + JOURNAL_BLOCKS <= |d.medium| && i < |t|
    requires c.read(View(d)[js]) == Some(RecordOf(c, t)) && View(d)[js + 1..js + 1 + |t|] == Blocks(t)
    requires w.lba == t[i].lba && w.blk != t[i].blk
    ensures var s := Exec(Exec(d, Store(w)), Barrier);
            && s.cache == [] && |s.medium| == |d.medium| && s.medium[w.lba] == w.blk
            && Recovered(c, js, s.medium)[w.lba] == t[i].blk
  {
    var s := Exec(Exec(d, Store(w)), Barrier);
    assert (d.cache + [w])[..|d.cache|] == d.cache;
    assert s == Disk(Put(View(d), w), []);
    assert s.medium[js + 1..js + 1 + |t|] == View(d)[js + 1..js + 1 + |t|];
    FoundPayload(c, js, s.medium, t);
    LandTxn(js, s.medium, t);
  }

  /** Why data keeps off the blocks of a live record. Mounting leaves a record whose payload does not check
      where it is. Data written over one of its blocks, and flushed, is undone if a later transaction stages
      the same payload again and the power goes before its own record is written. */
  lemma RecordOwnsItsBlocks(c: Codec, js: nat, d: Disk, before: Txn, w: Write, t: Txn, i: nat)
    requires TxnOk(js, |d.medium|, before) && js + JOURNAL_BLOCKS <= |d.medium| && i < |before|
    requires c.read(View(d)[js]) == Some(RecordOf(c, before))
    requires w.lba == before[i].lba && w.blk != before[i].blk && Blocks(t) == Blocks(before)
    ensures var s := Run(Exec(Exec(d, Store(w)), Barrier), FullOps(c, js, t)[..|t| + 1]);
            && s.cache == [] && |s.medium| == |d.medium| && View(s)[w.lba] == w.blk
            && Recovered(c, js, s.medium)[w.lba] != w.blk
  {
    var b := Exec(Exec(d, Store(w)), Barrier);
    assert (d.cache + [w])[..|d.cache|] == d.cache;
    assert b == Disk(Put(View(d), w), []);
    CommitSplit(c, js, t);
    RunStaged(js, b, t);
    var s := Run(b, FullOps(c, js, t)[..|t| + 1]);
    LandElsewhere(b.medium, StageWrites(js, t), js);
    LandElsewhere(b.medium, StageWrites(js, t), w.lba);
    PayloadLands(js, b.medium, t);
    FoundPayload(c, js, s.medium, before);
    LandTxn(js, s.medium, before);
  }
}
