/** Bytes and the little-endian integers the on-disk and ELF formats are made of. */
module Bytes {

  type Byte = x: int | 0 <= x < 256

  /** 256 to the power `width`: one past the largest integer `width` bytes hold. */
  function Range(width: nat): (r: nat)
    ensures r >= 1
  {
    if width == 0 then 1 else 256 * Range(width - 1)
  }

  /** The `width` low bytes of `n`, least significant first. */
  function ToLE(n: nat, width: nat): (r: seq<Byte>)
    ensures |r| == width
  {
    if width == 0 then [] else [n % 256] + ToLE(n / 256, width - 1)
  }

  function FromLE(s: seq<Byte>): nat {
    if s == [] then 0 else s[0] + 256 * FromLE(s[1..])
  }

  /** The little-endian integer of `width` bytes at offset `at`, as `struct.unpack_from` reads it. */
  function ReadLE(s: seq<Byte>, at: nat, width: nat): nat
    requires at + width <= |s|
  {
    FromLE(s[at..at + width])
  }

  /** An integer that fits survives being written and read. */
  lemma {:induction false} FromToLE(n: nat, width: nat)
    requires n < Range(width)
    ensures FromLE(ToLE(n, width)) == n
  {
    if width > 0 {
      FromToLE(n / 256, width - 1);
      assert ToLE(n, width)[1..] == ToLE(n / 256, width - 1);
    }
  }
}
