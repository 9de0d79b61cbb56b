/** The commit record as `commit_txn` lays it out in a 512-byte block and `recover` reads it back. */
module JournalRecord {
  import opened Text
  import opened Bytes
  import opened Journal

  const BLOCK := 512
  const JOURNAL_MAGIC := 0x474A_3034
  const COMMIT_CRC_OFF := 508

  type Crc = seq<Byte> -> nat

  /** A checksum of four bytes. */
  ghost predicate IsCrc(crc: Crc) { forall s :: crc(s) < SUM_LIMIT }

  function Zeros(n: nat): (r: seq<Byte>)
    ensures |r| == n
  {
    seq(n, _ => 0)
  }

  /** The home block numbers, eight bytes each. */
  function Table(homes: seq<nat>): (r: seq<Byte>)
    ensures |r| == 8 * |homes|
  {
    if homes == [] then [] else Table(homes[..|homes| - 1]) + ToLE(homes[|homes| - 1], 8)
  }

  /** The four-byte checksums of the staged blocks, one after another. */
  function PerBlock(crc: Crc, blocks: seq<Block>): seq<Byte> {
    if blocks == [] then [] else PerBlock(crc, blocks[..|blocks| - 1]) + ToLE(crc(blocks[|blocks| - 1]), 4)
  }

  /** Magic, count, homes, payload checksum: the bytes the record's own checksum covers. */
  function Header(r: CommitRecord): (h: seq<Byte>)
    ensures |h| == 12 + 8 * |r.homes|
  {
    ToLE(JOURNAL_MAGIC, 4) + ToLE(|r.homes|, 4) + Table(r.homes) + ToLE(r.sum, 4)
  }

  function Encode(crc: Crc, r: CommitRecord): Block {
    var h := Header(r);
    if |h| > COMMIT_CRC_OFF then Zeros(BLOCK)
    else h + Zeros(COMMIT_CRC_OFF - |h|) + ToLE(crc(h), 4)
  }

  function Decode(crc: Crc, b: Block): Option<CommitRecord> {
    if |b| != BLOCK || ReadLE(b, 0, 4) != JOURNAL_MAGIC then None
    else
      var n := ReadLE(b, 4, 4);
      if n == 0 || n > TXN_CAP || 12 + n * 8 > COMMIT_CRC_OFF then None
      else if crc(b[..12 + n * 8]) != ReadLE(b, COMMIT_CRC_OFF, 4) then None
      else Some(CommitRecord(seq(n, i requires 0 <= i < n => ReadLE(b, 8 + i * 8, 8)), ReadLE(b, 8 + n * 8, 4)))
  }

  function RealCodec(crc: Crc): Codec {
    Codec(b => Decode(crc, b), r => Encode(crc, r), bs => crc(PerBlock(crc, bs)), Zeros(BLOCK))
  }

  lemma {:induction false} TableAt(homes: seq<nat>, i: nat)
    requires i < |homes| && homes[i] < LBA_LIMIT
    ensures FromLE(Table(homes)[8 * i..8 * i + 8]) == homes[i]
  {
    var init, last := homes[..|homes| - 1], homes[|homes| - 1];
    if i == |homes| - 1 {
      assert Table(homes)[8 * i..8 * i + 8] == ToLE(last, 8);
      RangesHold();
      FromToLE(last, 8);
    } else {
      TableAt(init, i);
      assert Table(homes)[8 * i..8 * i + 8] == Table(init)[8 * i..8 * i + 8];
    }
  }

  lemma RangesHold()
    ensures Range(4) == SUM_LIMIT && Range(8) == LBA_LIMIT
  {
    assert Range(2) == 256 * (256 * Range(0));
    assert Range(4) == 256 * (256 * Range(2));
    assert Range(6) == 256 * (256 * Range(4));
    assert Range(8) == 256 * (256 * Range(6));
  }

  /** Four fields end to end, found again by offset. */
  lemma FourFields(magic: seq<Byte>, count: seq<Byte>, table: seq<Byte>, sum: seq<Byte>)
    requires |magic| == |count| == |sum| == 4
    ensures var h := magic + count + table + sum;
            && h[0..4] == magic && h[4..8] == count && h[8..8 + |table|] == table
            && h[8 + |table|..8 + |table| + 4] == sum
  {
    var h := magic + count + table + sum;
    var front := magic + count;
    var body := front + table;
    assert h == body + sum;
    assert h[..|body|] == body && h[|body|..] == sum;
    assert body[..8] == front && body[8..] == table;
  }

  lemma HeaderFields(r: CommitRecord)
    ensures var h := Header(r); var n := |r.homes|;
            && h[0..4] == ToLE(JOURNAL_MAGIC, 4) && h[4..8] == ToLE(n, 4)
            && h[8..8 + n * 8] == Table(r.homes) && h[8 + n * 8..8 + n * 8 + 4] == ToLE(r.sum, 4)
  {
    FourFields(ToLE(JOURNAL_MAGIC, 4), ToLE(|r.homes|, 4), Table(r.homes), ToLE(r.sum, 4));
  }

  lemma HeaderReads(r: CommitRecord)
    requires Fits(r)
    ensures var h := Header(r); var n := |r.homes|;
            FromLE(h[0..4]) == JOURNAL_MAGIC && FromLE(h[4..8]) == n && FromLE(h[8 + n * 8..8 + n * 8 + 4]) == r.sum
  {
    RangesHold();
    HeaderFields(r);
    FromToLE(JOURNAL_MAGIC, 4);
    FromToLE(|r.homes|, 4);
    FromToLE(r.sum, 4);
  }

  lemma HeaderHome(r: CommitRecord, i: nat)
    requires Fits(r) && i < |r.homes|
    ensures FromLE(Header(r)[8 + i * 8..8 + i * 8 + 8]) == r.homes[i]
  {
    var h, n := Header(r), |r.homes|;
    HeaderFields(r);
    TableAt(r.homes, i);
    assert h[8 + i * 8..8 + i * 8 + 8] == h[8..8 + n * 8][8 * i..8 * i + 8];
  }

  /** The block is its header, padding, and the checksum over the header. */
  lemma EncodeParts(crc: Crc, r: CommitRecord)
    requires IsCrc(crc) && Fits(r)
    ensures var b, h := Encode(crc, r), Header(r);
            |b| == BLOCK && b[..|h|] == h && b[COMMIT_CRC_OFF..COMMIT_CRC_OFF + 4] == ToLE(crc(h), 4)
  {
  }

  /** A field of the header is the same field of the block. */
  lemma EncodeField(crc: Crc, r: CommitRecord, at: nat, n: nat)
    requires IsCrc(crc) && Fits(r) && at + n <= |Header(r)|
    ensures at + n <= |Encode(crc, r)| && ReadLE(Encode(crc, r), at, n) == FromLE(Header(r)[at..at + n])
  {
    EncodeParts(crc, r);
    var b, h := Encode(crc, r), Header(r);
    assert b[at..at + n] == b[..|h|][at..at + n];
  }

  /** The record's own checksum reads back. */
  lemma EncodeCrc(crc: Crc, r: CommitRecord)
    requires IsCrc(crc) && Fits(r)
    ensures |Encode(crc, r)| == BLOCK
    ensures ReadLE(Encode(crc, r), COMMIT_CRC_OFF, 4) == crc(Encode(crc, r)[..12 + |r.homes| * 8])
  {
    EncodeParts(crc, r);
    RangesHold();
    FromToLE(crc(Header(r)), 4);
  }

  /** A block whose fields are those of the record reads as the record. */
  lemma DecodeFields(crc: Crc, b: Block, r: CommitRecord)
    requires |b| == BLOCK && Fits(r) && ReadLE(b, 0, 4) == JOURNAL_MAGIC && ReadLE(b, 4, 4) == |r.homes|
    requires ReadLE(b, COMMIT_CRC_OFF, 4) == crc(b[..12 + |r.homes| * 8]) && ReadLE(b, 8 + |r.homes| * 8, 4) == r.sum
    requires forall i :: 0 <= i < |r.homes| ==> ReadLE(b, 8 + i * 8, 8) == r.homes[i]
    ensures Decode(crc, b) == Some(r)
  {
    var n := |r.homes|;
    assert seq(n, i requires 0 <= i < n => ReadLE(b, 8 + i * 8, 8)) == r.homes;
  }

  /** A record that fits its fields reads back from its block. */
  lemma DecodeEncode(crc: Crc, r: CommitRecord)
    requires IsCrc(crc) && Fits(r)
    ensures Decode(crc, Encode(crc, r)) == Some(r)
  {
    var b, n := Encode(crc, r), |r.homes|;
    EncodeCrc(crc, r);
    HeaderReads(r);
    EncodeField(crc, r, 0, 4);
    EncodeField(crc, r, 4, 4);
    EncodeField(crc, r, 8 + n * 8, 4);
    forall i | 0 <= i < n ensures ReadLE(b, 8 + i * 8, 8) == r.homes[i] {
      HeaderHome(r, i);
      EncodeField(crc, r, 8 + i * 8, 8);
    }
    DecodeFields(crc, b, r);
  }

  /** The layout meets everything the protocol asks of it, whatever the checksum function. */
  lemma RealCodecIsLawful(crc: Crc)
    requires IsCrc(crc)
    ensures Lawful(RealCodec(crc))
  {
    var c := RealCodec(crc);
    var z := Zeros(BLOCK);
    assert z[0..4] == [0, 0, 0, 0];
    assert [0, 0, 0, 0][1..] == [0, 0, 0] && [0, 0, 0][1..] == [0, 0] && [0, 0][1..] == [0] && [0][1..] == [];
    assert FromLE([0, 0]) == 0;
    assert FromLE([0, 0, 0, 0]) == 0;
    forall xs ensures c.sum(xs) < SUM_LIMIT {
      assert c.sum(xs) == crc(PerBlock(crc, xs));
    }
    forall r | Fits(r) ensures c.read(c.write(r)) == Some(r) { DecodeEncode(crc, r); }
  }
}
