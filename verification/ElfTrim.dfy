/** Cutting a service ELF down to what a loader reads: `trim_elf` in scripts/arm_build.py. */
module ElfTrim {
  import opened Bytes

  /** Where the fields are, in the 32- and the 64-bit form of the System V gABI (chapters 4 and 5). */
  datatype Layout = Layout(
    header: nat,      // size of the ELF header
    phoff: nat,       // offset of e_phoff
    phentsize: nat,   // offset of e_phentsize
    phnum: nat,       // offset of e_phnum
    shoff: nat,       // offset of e_shoff
    shnum: nat,       // offset of e_shnum
    shstrndx: nat,    // offset of e_shstrndx
    offset: nat,      // offset of p_offset in a program header
    filesz: nat,      // offset of p_filesz in a program header
    word: nat)        // bytes of an offset or size

  const ELF32 := Layout(52, 0x1C, 0x2A, 0x2C, 0x20, 0x30, 0x32, 4, 0x10, 4)
  const ELF64 := Layout(64, 0x20, 0x36, 0x38, 0x28, 0x3C, 0x3E, 8, 0x20, 8)

  /** What every use of a layout relies on: the fields lie in the header, the zeroed ones apart
      from the ones that are read. */
  ghost predicate Sound(l: Layout) {
    && 6 <= l.phoff && l.phoff + l.word <= l.shoff && l.shoff + l.word <= l.phentsize
    && l.phentsize + 2 == l.phnum && l.phnum + 2 <= l.shnum && l.shnum + 2 == l.shstrndx
    && l.shstrndx + 2 == l.header && l.offset + l.word <= l.filesz
  }

  lemma LayoutsAreSound()
    ensures Sound(ELF32) && Sound(ELF64)
  {
  }

  const MAGIC: seq<Byte> := [0x7F, 0x45, 0x4C, 0x46]

  datatype Outcome = NotElf | Truncated | Trimmed(bytes: seq<Byte>)

  predicate IsElf(b: seq<Byte>) { |b| >= 6 && b[..4] == MAGIC && b[5] == 1 }

  function LayoutOf(b: seq<Byte>): Layout
    requires |b| >= 6
  {
    if b[4] == 1 then ELF32 else ELF64
  }

  // --- the program headers ---

  predicate HeaderReadable(b: seq<Byte>, l: Layout) {
    l.phnum + 2 <= |b| && l.phoff + l.word <= |b| && l.phentsize + 2 <= |b|
  }

  function Phoff(b: seq<Byte>, l: Layout): nat
    requires HeaderReadable(b, l)
  {
    ReadLE(b, l.phoff, l.word)
  }

  function Phentsize(b: seq<Byte>, l: Layout): nat
    requires HeaderReadable(b, l)
  {
    ReadLE(b, l.phentsize, 2)
  }

  function Phnum(b: seq<Byte>, l: Layout): nat
    requires HeaderReadable(b, l)
  {
    ReadLE(b, l.phnum, 2)
  }

  function HeaderAt(b: seq<Byte>, l: Layout, i: nat): nat
    requires HeaderReadable(b, l)
  {
    Phoff(b, l) + i * Phentsize(b, l)
  }

  predicate SegmentReadable(b: seq<Byte>, l: Layout, i: nat)
    requires HeaderReadable(b, l)
  {
    HeaderAt(b, l, i) + l.offset + l.word <= |b| && HeaderAt(b, l, i) + l.filesz + l.word <= |b|
  }

  function SegmentStart(b: seq<Byte>, l: Layout, i: nat): nat
    requires HeaderReadable(b, l) && SegmentReadable(b, l, i)
  {
    ReadLE(b, HeaderAt(b, l, i) + l.offset, l.word)
  }

  function SegmentEnd(b: seq<Byte>, l: Layout, i: nat): nat
    requires HeaderReadable(b, l) && SegmentReadable(b, l, i)
  {
    SegmentStart(b, l, i) + ReadLE(b, HeaderAt(b, l, i) + l.filesz, l.word)
  }

  predicate AllReadable(b: seq<Byte>, l: Layout, k: nat)
    requires HeaderReadable(b, l)
  {
    forall i :: 0 <= i < k ==> SegmentReadable(b, l, i)
  }

  function TableEnd(b: seq<Byte>, l: Layout): nat
    requires HeaderReadable(b, l)
  {
    HeaderAt(b, l, Phnum(b, l))
  }

  /** A prefix of `n` bytes that holds the program headers and the first `k` segments. */
  ghost predicate Holds(b: seq<Byte>, l: Layout, k: nat, n: nat)
    requires HeaderReadable(b, l) && AllReadable(b, l, k)
  {
    TableEnd(b, l) <= n && forall i :: 0 <= i < k ==> SegmentEnd(b, l, i) <= n
  }

  /** Where the last of the program headers and the first `k` segments ends. */
  function ImageEnd(b: seq<Byte>, l: Layout, k: nat): nat
    requires HeaderReadable(b, l) && AllReadable(b, l, k)
  {
    if k == 0 then TableEnd(b, l)
    else
      var end := ImageEnd(b, l, k - 1);
      if SegmentEnd(b, l, k - 1) > end then SegmentEnd(b, l, k - 1) else end
  }

  /** The image end is the length of the shortest prefix that holds everything. */
  lemma {:induction false} ImageEndIsLeast(b: seq<Byte>, l: Layout, k: nat, n: nat)
    requires HeaderReadable(b, l) && AllReadable(b, l, k)
    ensures Holds(b, l, k, n) <==> ImageEnd(b, l, k) <= n
  {
    if k > 0 { ImageEndIsLeast(b, l, k - 1, n); }
  }

  /** Python's `out[at:at + w] = bytes(w)`: past the end it appends. */
  function Blanked(s: seq<Byte>, at: nat, w: nat): seq<Byte> {
    var lo := if at < |s| then at else |s|;
    var hi := if at + w < |s| then at + w else |s|;
    s[..lo] + seq(w, _ => 0) + s[hi..]
  }

  /** The section header table's offset, count and name index, zeroed. */
  function Unsectioned(s: seq<Byte>, l: Layout): seq<Byte> {
    Blanked(Blanked(Blanked(s, l.shoff, l.word), l.shnum, 2), l.shstrndx, 2)
  }

  /** What `trim_elf` answers: it exits on what is no little-endian ELF, and fails on one whose
      header or program headers run past the end of the file. */
  function Trim(b: seq<Byte>): Outcome {
    if |b| < 4 || b[..4] != MAGIC then NotElf
    else if |b| < 6 then Truncated
    else if b[5] != 1 then NotElf
    else
      var l := LayoutOf(b);
      if !HeaderReadable(b, l) || !AllReadable(b, l, Phnum(b, l)) then Truncated
      else Trimmed(Unsectioned(Prefix(b, ImageEnd(b, l, Phnum(b, l))), l))
  }

  function Prefix(b: seq<Byte>, n: nat): seq<Byte> { if n < |b| then b[..n] else b }

  method TrimElf(b: seq<Byte>) returns (r: Outcome)
    ensures r == Trim(b)
  {
    if |b| < 4 || b[..4] != MAGIC { return NotElf; }
    if |b| < 6 { return Truncated; }
    if b[5] != 1 { return NotElf; }
    var l := LayoutOf(b);
    if !HeaderReadable(b, l) { return Truncated; }
    var end := TableEnd(b, l);
    var phnum := Phnum(b, l);
    for i := 0 to phnum
      invariant AllReadable(b, l, i) && end == ImageEnd(b, l, i)
    {
      if !SegmentReadable(b, l, i) { return Truncated; }
      if SegmentEnd(b, l, i) > end { end := SegmentEnd(b, l, i); }
    }
    var out := Prefix(b, end);
    out := Blanked(out, l.shoff, l.word);
    out := Blanked(out, l.shnum, 2);
    out := Blanked(out, l.shstrndx, 2);
    r := Trimmed(out);
  }

  // --- well-formed files ---

  /** A little-endian ELF whose program headers follow its header and whose parts all lie in it. */
  ghost predicate WellFormed(b: seq<Byte>) {
    IsElf(b) &&
    var l := LayoutOf(b);
    && l.header <= |b| && HeaderReadable(b, l)
    && l.header <= Phoff(b, l)
    && l.filesz + l.word <= Phentsize(b, l)
    && TableEnd(b, l) <= |b|
    && AllReadable(b, l, Phnum(b, l))
    && forall i :: 0 <= i < Phnum(b, l) ==> SegmentEnd(b, l, i) <= |b|
  }

  /** A byte of one of the three section-header fields. */
  predicate InSectionFields(l: Layout, p: nat) {
    l.shoff <= p < l.shoff + l.word || l.shnum <= p < l.shnum + 2 || l.shstrndx <= p < l.shstrndx + 2
  }

  /** `t` is the shortest prefix of `b` that holds its program headers and every segment, with only
      the section-header fields cleared. */
  ghost predicate IsTrimOf(b: seq<Byte>, t: seq<Byte>)
    requires WellFormed(b)
  {
    var l := LayoutOf(b);
    && |t| <= |b|
    && (forall n: nat :: Holds(b, l, Phnum(b, l), n) <==> |t| <= n)
    && forall p :: 0 <= p < |t| ==> t[p] == if InSectionFields(l, p) then 0 else b[p]
  }

  lemma BlankedInside(s: seq<Byte>, at: nat, w: nat)
    requires at + w <= |s|
    ensures |Blanked(s, at, w)| == |s|
    ensures forall p :: 0 <= p < |s| ==> Blanked(s, at, w)[p] == if at <= p < at + w then 0 else s[p]
  {
  }

  lemma UnsectionedInside(s: seq<Byte>, l: Layout)
    requires Sound(l) && l.header <= |s|
    ensures |Unsectioned(s, l)| == |s|
    ensures forall p :: 0 <= p < |s| ==> Unsectioned(s, l)[p] == if InSectionFields(l, p) then 0 else s[p]
  {
    BlankedInside(s, l.shoff, l.word);
    var s1 := Blanked(s, l.shoff, l.word);
    BlankedInside(s1, l.shnum, 2);
    BlankedInside(Blanked(s1, l.shnum, 2), l.shstrndx, 2);
  }

  lemma LayoutIsSound(b: seq<Byte>)
    requires |b| >= 6
    ensures Sound(LayoutOf(b))
  {
    LayoutsAreSound();
  }

  lemma HeadersBeforeTableEnd(b: seq<Byte>, l: Layout)
    requires HeaderReadable(b, l)
    ensures Phoff(b, l) <= TableEnd(b, l)
  {
    assert Phnum(b, l) * Phentsize(b, l) >= 0;
  }

  /** A well-formed file is trimmed to the shortest prefix that loads, and nothing else of it changes. */
  lemma TrimIsShortest(b: seq<Byte>)
    requires WellFormed(b)
    ensures Trim(b).Trimmed? && IsTrimOf(b, Trim(b).bytes)
  {
    var l := LayoutOf(b);
    LayoutIsSound(b);
    var end := ImageEnd(b, l, Phnum(b, l));
    forall n: nat ensures Holds(b, l, Phnum(b, l), n) <==> end <= n {
      ImageEndIsLeast(b, l, Phnum(b, l), n);
    }
    assert Holds(b, l, Phnum(b, l), |b|);
    HeadersBeforeTableEnd(b, l);
    assert Holds(b, l, Phnum(b, l), end);
    assert Prefix(b, end) == b[..end];
    UnsectionedInside(b[..end], l);
  }

  lemma TrimsAreEqual(b: seq<Byte>, s: seq<Byte>, t: seq<Byte>)
    requires WellFormed(b) && IsTrimOf(b, s) && IsTrimOf(b, t)
    ensures s == t
  {
    assert Holds(b, LayoutOf(b), Phnum(b, LayoutOf(b)), |s|) && Holds(b, LayoutOf(b), Phnum(b, LayoutOf(b)), |t|);
  }

  /** Reading a field the trim leaves alone gives what it gave before. */
  lemma SameRead(b: seq<Byte>, t: seq<Byte>, l: Layout, at: nat, w: nat)
    requires |t| <= |b| && at + w <= |t|
    requires forall p :: 0 <= p < |t| ==> t[p] == if InSectionFields(l, p) then 0 else b[p]
    requires forall p :: at <= p < at + w ==> !InSectionFields(l, p)
    ensures ReadLE(t, at, w) == ReadLE(b, at, w)
  {
    assert t[at..at + w] == b[at..at + w];
  }

  lemma EntryFits(i: nat, n: nat, e: nat)
    requires i < n
    ensures 0 <= i * e && i * e + e <= n * e
  {
    assert (i + 1) * e <= n * e;
  }

  lemma HeaderWithinTable(b: seq<Byte>, l: Layout, i: nat)
    requires HeaderReadable(b, l) && i < Phnum(b, l) && l.filesz + l.word <= Phentsize(b, l)
    ensures HeaderAt(b, l, i) + l.filesz + l.word <= TableEnd(b, l) && Phoff(b, l) <= HeaderAt(b, l, i)
  {
    EntryFits(i, Phnum(b, l), Phentsize(b, l));
  }

  lemma TrimKeepsHeader(b: seq<Byte>, t: seq<Byte>)
    requires WellFormed(b) && IsTrimOf(b, t)
    ensures IsElf(t) && LayoutOf(t) == LayoutOf(b)
    ensures var l := LayoutOf(b);
            HeaderReadable(t, l) && Phoff(t, l) == Phoff(b, l)
            && Phentsize(t, l) == Phentsize(b, l) && Phnum(t, l) == Phnum(b, l)
  {
    var l := LayoutOf(b);
    LayoutIsSound(b);
    HeadersBeforeTableEnd(b, l);
    assert Holds(b, l, Phnum(b, l), |t|);
    assert t[..4] == b[..4];
    SameRead(b, t, l, l.phoff, l.word);
    SameRead(b, t, l, l.phentsize, 2);
    SameRead(b, t, l, l.phnum, 2);
  }

  lemma ReadsAboveHeader(b: seq<Byte>, t: seq<Byte>, l: Layout, at: nat)
    requires Sound(l) && l.header <= at && at + l.filesz + l.word <= |t| <= |b|
    requires forall p :: 0 <= p < |t| ==> t[p] == if InSectionFields(l, p) then 0 else b[p]
    ensures ReadLE(t, at + l.offset, l.word) == ReadLE(b, at + l.offset, l.word)
    ensures ReadLE(t, at + l.filesz, l.word) == ReadLE(b, at + l.filesz, l.word)
  {
    SameRead(b, t, l, at + l.offset, l.word);
    SameRead(b, t, l, at + l.filesz, l.word);
  }

  lemma SegmentHeaderInside(b: seq<Byte>, t: seq<Byte>, i: nat)
    requires WellFormed(b) && IsTrimOf(b, t) && i < Phnum(b, LayoutOf(b))
    ensures var l := LayoutOf(b); var at := HeaderAt(b, l, i); l.header <= at && at + l.filesz + l.word <= |t|
  {
    var l := LayoutOf(b);
    HeaderWithinTable(b, l, i);
    assert Holds(b, l, Phnum(b, l), |t|);
  }

  lemma TrimKeepsSegment(b: seq<Byte>, t: seq<Byte>, i: nat)
    requires WellFormed(b) && IsTrimOf(b, t) && i < Phnum(b, LayoutOf(b))
    ensures HeaderReadable(t, LayoutOf(b)) && SegmentReadable(t, LayoutOf(b), i)
    ensures SegmentStart(t, LayoutOf(b), i) == SegmentStart(b, LayoutOf(b), i)
    ensures SegmentEnd(t, LayoutOf(b), i) == SegmentEnd(b, LayoutOf(b), i)
  {
    LayoutIsSound(b);
    TrimKeepsHeader(b, t);
    SegmentHeaderInside(b, t, i);
    ReadsAboveHeader(b, t, LayoutOf(b), HeaderAt(b, LayoutOf(b), i));
  }

  /** A loader sees the same program: every segment clear of the ELF header has the same place and
      the same bytes, and one that overlaps it differs in the section-header fields only. */
  lemma TrimLoadsTheSame(b: seq<Byte>, t: seq<Byte>, i: nat)
    requires WellFormed(b) && IsTrimOf(b, t) && i < Phnum(b, LayoutOf(b))
    ensures HeaderReadable(t, LayoutOf(b)) && SegmentReadable(t, LayoutOf(b), i)
    ensures var l := LayoutOf(b); var from, to := SegmentStart(b, l, i), SegmentEnd(b, l, i);
            && SegmentStart(t, l, i) == from && SegmentEnd(t, l, i) == to && from <= to <= |t|
            && (l.header <= from ==> t[from..to] == b[from..to])
  {
    var l := LayoutOf(b);
    LayoutIsSound(b);
    TrimKeepsSegment(b, t, i);
    assert Holds(b, l, Phnum(b, l), |t|);
    var from, to := SegmentStart(b, l, i), SegmentEnd(b, l, i);
    if l.header <= from { assert t[from..to] == b[from..to]; }
  }

  lemma TrimIsWellFormed(b: seq<Byte>, t: seq<Byte>)
    requires WellFormed(b) && IsTrimOf(b, t)
    ensures WellFormed(t) && IsTrimOf(t, t)
  {
    var l := LayoutOf(b);
    LayoutIsSound(b);
    TrimKeepsHeader(b, t);
    HeadersBeforeTableEnd(b, l);
    assert Holds(b, l, Phnum(b, l), |t|);
    forall i | 0 <= i < Phnum(b, l)
      ensures SegmentReadable(t, l, i) && SegmentEnd(t, l, i) == SegmentEnd(b, l, i)
    {
      TrimKeepsSegment(b, t, i);
    }
    forall n: nat ensures Holds(t, l, Phnum(t, l), n) <==> |t| <= n {
      assert Holds(t, l, Phnum(t, l), n) <==> Holds(b, l, Phnum(b, l), n);
    }
  }

  /** Trimming a trimmed file changes nothing. */
  lemma TrimIsIdempotent(b: seq<Byte>)
    requires WellFormed(b)
    ensures Trim(b).Trimmed? && Trim(Trim(b).bytes) == Trim(b)
  {
    TrimIsShortest(b);
    var t := Trim(b).bytes;
    TrimIsWellFormed(b, t);
    TrimIsShortest(t);
    TrimsAreEqual(t, t, Trim(t).bytes);
  }
}
