/** Bits of byte strings, numbered from the most significant bit of the first
    byte, as both programs do. */
module Bits {

  /** `0x80 >> k`. */
  function Mask(k: nat): bv8
    requires k < 8
  {
    match k
    case 0 => 0x80
    case 1 => 0x40
    case 2 => 0x20
    case 3 => 0x10
    case 4 => 0x08
    case 5 => 0x04
    case 6 => 0x02
    case 7 => 0x01
  }

  predicate ByteBit(b: bv8, k: nat)
    requires k < 8
  {
    b & Mask(k) != 0
  }

  predicate Bit(x: seq<bv8>, k: nat)
    requires k < 8 * |x|
  {
    ByteBit(x[k / 8], k % 8)
  }

  lemma ByteOr(b: bv8, j: nat, k: nat)
    requires j < 8 && k < 8
    ensures ByteBit(b | Mask(j), k) <==> k == j || ByteBit(b, k)
  {
  }

  lemma ByteClear(b: bv8, j: nat, k: nat)
    requires j < 8 && k < 8
    ensures ByteBit(b & !Mask(j), k) <==> k != j && ByteBit(b, k)
  {
  }

  lemma ByteAnd(a: bv8, b: bv8, k: nat)
    requires k < 8
    ensures ByteBit(a & b, k) <==> ByteBit(a, k) && ByteBit(b, k)
  {
  }

  lemma ByteNot(a: bv8, k: nat)
    requires k < 8
    ensures ByteBit(!a, k) <==> !ByteBit(a, k)
  {
  }

  lemma ByteFull(k: nat)
    requires k < 8
    ensures ByteBit(0xff, k)
  {
  }

  /** `bstest_mask`: the first `n` bits of a byte, or all of them for `n` = 0. */
  function TailMask(n: nat): bv8
    requires n < 8
  {
    match n
    case 0 => 0xff
    case 1 => 0x80
    case 2 => 0xc0
    case 3 => 0xe0
    case 4 => 0xf0
    case 5 => 0xf8
    case 6 => 0xfc
    case 7 => 0xfe
  }

  lemma ByteTail(b: bv8, n: nat)
    requires n < 8
    ensures b & TailMask(n) == 0 <==> forall k :: 0 <= k < (if n == 0 then 8 else n) ==> !ByteBit(b, k)
  {
    assert ByteBit(b, 0) <==> b & 0x80 != 0;
    assert ByteBit(b, 1) <==> b & 0x40 != 0;
    assert ByteBit(b, 2) <==> b & 0x20 != 0;
    assert ByteBit(b, 3) <==> b & 0x10 != 0;
    assert ByteBit(b, 4) <==> b & 0x08 != 0;
    assert ByteBit(b, 5) <==> b & 0x04 != 0;
    assert ByteBit(b, 6) <==> b & 0x02 != 0;
    assert ByteBit(b, 7) <==> b & 0x01 != 0;
  }
}
