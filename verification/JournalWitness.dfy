/** What the crash proofs assume of the checksum can be met: it is about the payloads that occur, not
    about all there are. */
module JournalWitness {
  import opened Text
  import opened Bytes
  import opened Journal
  import opened JournalHistory
  import opened JournalRecord

  function Payloads(js: nat, img: seq<Block>): set<seq<Block>>
    requires js + JOURNAL_BLOCKS <= |img|
  {
    set n | 0 <= n <= TXN_CAP :: Payload(js, img, n)
  }

  /** A commit brings two journals into play, the one it finds and the one it stages. The checksum has
      to tell them apart only where they differ: a condition on at most 56 pairs of payloads. */
  lemma FiniteCondition(c: Codec, js: nat, before: seq<Block>, after: seq<Block>)
    requires js + JOURNAL_BLOCKS <= |before| && js + JOURNAL_BLOCKS <= |after|
    requires forall n :: 0 <= n <= TXN_CAP && c.sum(Payload(js, before, n)) == c.sum(Payload(js, after, n)) ==>
               Payload(js, before, n) == Payload(js, after, n)
    ensures var ps := Payloads(js, before) + Payloads(js, after);
            Discriminates(c, ps) && Seen(js, before, ps) && Seen(js, after, ps)
  {
    var ps := Payloads(js, before) + Payloads(js, after);
    forall xs, ys | xs in ps && ys in ps && |xs| == |ys| && c.sum(xs) == c.sum(ys)
      ensures xs == ys
    {
      var n := |xs|;
      assert xs == Payload(js, before, n) || xs == Payload(js, after, n);
      assert ys == Payload(js, before, n) || ys == Payload(js, after, n);
    }
  }

  /** A checksum that looks at first bytes only. */
  function FirstByte(s: seq<Byte>): nat { if s == [] then 0 else s[0] }

  const FIRST: Crc := s => FirstByte(s)

  lemma {:induction false} PerBlockFirst(blocks: seq<Block>)
    requires blocks != [] && blocks[0] != []
    ensures PerBlock(FIRST, blocks) != [] && PerBlock(FIRST, blocks)[0] == blocks[0][0]
  {
    if |blocks| == 1 {
      assert blocks[..0] == [];
      assert PerBlock(FIRST, blocks) == [] + ToLE(FIRST(blocks[0]), 4);
    } else {
      PerBlockFirst(blocks[..|blocks| - 1]);
    }
  }

  /** The hypotheses of the crash proofs hold together, of the real record layout and a transaction that
      changes the home. */
  lemma HypothesesHold() returns (c: Codec, js: nat, d: Disk, h: seq<Block>, t: Txn, ps: set<seq<Block>>)
    ensures Lawful(c) && Discriminates(c, ps) && Ready(js, d, t, ps)
    ensures Serves(c, js, d, Promise(h, {}, {}), ps, false) && t[0].lba < |h| && t[0].blk != h[t[0].lba]
  {
    var blank, full: Block := Zeros(BLOCK), [1] + Zeros(BLOCK - 1);
    c, js, h, t := RealCodec(FIRST), 0, seq(128, _ => blank), [Write(100, full)];
    d := Disk(h, []);
    RealCodecIsLawful(FIRST);
    var after := Land(View(d), StageWrites(js, t));
    assert StageWrites(js, t) == [Write(1, full)];
    LandOne(h, Write(1, full));
    assert after == h[1 := full];
    forall n | 0 <= n <= TXN_CAP && c.sum(Payload(js, h, n)) == c.sum(Payload(js, after, n))
      ensures Payload(js, h, n) == Payload(js, after, n)
    {
      if n > 0 {
        PerBlockFirst(Payload(js, h, n));
        PerBlockFirst(Payload(js, after, n));
      }
    }
    FiniteCondition(c, js, h, after);
    ps := Payloads(js, h) + Payloads(js, after);
    QuietServes(c, js, d, h, ps, {});
  }
}
