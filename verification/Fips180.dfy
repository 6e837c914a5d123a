/** SHA-1 as FIPS 180-4 defines it. */
module Fips180 {

  type byte = bv8
  type word = bv32

  const TWO32 := 0x1_0000_0000
  const TWO64 := 0x1_0000_0000_0000_0000

  // -------------------------------------------------------------- FIPS 180-4, words

  /** Section 3.2: rotation to the left. */
  function Rotl(x: word, n: bv6): word
    requires 0 < n < 32
  {
    (x << n) | (x >> (32 - n))
  }

  /** Section 4.1.1: the functions of the four groups of rounds. */
  function Ch(x: word, y: word, z: word): word {
    (x & y) ^ (!x & z)
  }

  function Parity(x: word, y: word, z: word): word {
    x ^ y ^ z
  }

  function Maj(x: word, y: word, z: word): word {
    (x & y) ^ (x & z) ^ (y & z)
  }

  function Ft(t: nat, x: word, y: word, z: word): word {
    if t < 20 then Ch(x, y, z) else if t < 40 then Parity(x, y, z) else if t < 60 then Maj(x, y, z) else Parity(x, y, z)
  }

  /** Section 4.2.1. */
  function Kt(t: nat): word {
    if t < 20 then 0x5a827999 else if t < 40 then 0x6ed9eba1 else if t < 60 then 0x8f1bbcdc else 0xca62c1d6
  }

  /** A word of the message, most significant byte first. */
  function BigEndian(b0: byte, b1: byte, b2: byte, b3: byte): word {
    (b0 as word << 24) | (b1 as word << 16) | (b2 as word << 8) | b3 as word
  }

  /** The word the same four bytes make on a little-endian machine. */
  function LittleEndian(b0: byte, b1: byte, b2: byte, b3: byte): word {
    (b3 as word << 24) | (b2 as word << 16) | (b1 as word << 8) | b0 as word
  }

  function Words(block: seq<byte>): (m: seq<word>)
    requires |block| == 64
    ensures |m| == 16
  {
    seq(16, i requires 0 <= i < 16 => BigEndian(block[4 * i], block[4 * i + 1], block[4 * i + 2], block[4 * i + 3]))
  }

  function RawWords(block: seq<byte>): (m: seq<word>)
    requires |block| == 64
    ensures |m| == 16
  {
    seq(16, i requires 0 <= i < 16 => LittleEndian(block[4 * i], block[4 * i + 1], block[4 * i + 2], block[4 * i + 3]))
  }

  function Turned(a: word, b: word, c: word, d: word): word {
    Rotl(a ^ b ^ c ^ d, 1)
  }

  /** Section 6.1.2, step 1: the message schedule of eighty words. */
  function W(m: seq<word>, t: nat): word
    requires |m| == 16
  {
    if t < 16 then m[t] else Turned(W(m, t - 3), W(m, t - 8), W(m, t - 14), W(m, t - 16))
  }

  datatype Hash = Hash(a: word, b: word, c: word, d: word, e: word)

  /** Section 5.3.1. */
  const H0 := Hash(0x67452301, 0xefcdab89, 0x98badcfe, 0x10325476, 0xc3d2e1f0)

  /** A sum modulo `2^32`. */
  function Sum(r: word, f: word, e: word, k: word, w: word): word {
    r + f + e + k + w
  }

  /** Section 6.1.2, step 3, once. */
  function Step(h: Hash, t: nat, wt: word): Hash {
    Hash(Sum(Rotl(h.a, 5), Ft(t, h.b, h.c, h.d), h.e, Kt(t), wt), h.a, Rotl(h.b, 30), h.c, h.d)
  }

  /** The working variables after `t` rounds. */
  function Rounds(m: seq<word>, t: nat, h: Hash): Hash
    requires |m| == 16
  {
    if t == 0 then h else Step(Rounds(m, t - 1, h), t - 1, W(m, t - 1))
  }

  function Plus(h: Hash, k: Hash): Hash {
    Hash(h.a + k.a, h.b + k.b, h.c + k.c, h.d + k.d, h.e + k.e)
  }

  function Compress(h: Hash, block: seq<byte>): Hash
    requires |block| == 64
  {
    Plus(h, Rounds(Words(block), 80, h))
  }

  // ----------------------------------------------------------- FIPS 180-4, messages

  /** The hash value after whole blocks. */
  function HashBlocks(m: seq<byte>): Hash
    requires |m| % 64 == 0
  {
    if m == [] then H0 else Compress(HashBlocks(m[..|m| - 64]), m[|m| - 64..])
  }

  function Split(x: nat): (b: seq<byte>)
    requires x < TWO32
    ensures |b| == 4
  {
    [(x / 0x100_0000) as byte, (x / 0x1_0000 % 256) as byte, (x / 256 % 256) as byte, (x % 256) as byte]
  }

  /** A length in bits as eight bytes, most significant first. */
  function LengthBytes(bits: nat): (b: seq<byte>)
    requires bits < TWO64
    ensures |b| == 8
  {
    Split(bits / TWO32) + Split(bits % TWO32)
  }

  function Zeros(k: nat): (z: seq<byte>)
    ensures |z| == k
  {
    seq(k, _ => 0)
  }

  /** How many zero bytes follow the one bit of a message of `n` bytes. */
  function ZerosFor(n: nat): nat {
    (55 - n) % 64
  }

  lemma PaddingFills(n: nat)
    ensures (n + 1 + ZerosFor(n) + 8) % 64 == 0
  {
  }

  /** Section 5.1.1: a one bit, the fewest zeros that leave room for the length
      at the end of a block, and the length; messages of `2^64` bits and more
      take it modulo that. */
  function Padded(m: seq<byte>): (p: seq<byte>)
    ensures |p| % 64 == 0
  {
    PaddingFills(|m|);
    m + [0x80] + Zeros(ZerosFor(|m|)) + LengthBytes(8 * |m| % TWO64)
  }

  /** Byte `k` of a word, the most significant being number 0. */
  function ByteOf(x: word, k: nat): byte {
    if k == 0 then (x >> 24) as byte
    else if k == 1 then ((x >> 16) & 0xff) as byte
    else if k == 2 then ((x >> 8) & 0xff) as byte
    else (x & 0xff) as byte
  }

  function Part(h: Hash, k: nat): word {
    if k == 0 then h.a else if k == 1 then h.b else if k == 2 then h.c else if k == 3 then h.d else h.e
  }

  function HashBytes(h: Hash): (d: seq<byte>)
    ensures |d| == 20
  {
    seq(20, i requires 0 <= i < 20 => ByteOf(Part(h, i / 4), i % 4))
  }

  /** Section 6.1: the message digest. */
  function Digest(m: seq<byte>): (d: seq<byte>)
    ensures |d| == 20
  {
    HashBytes(HashBlocks(Padded(m)))
  }
}
