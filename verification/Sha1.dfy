/** The SHA-1 code: sixteen words that roll, a buffer for the unfinished block
    and a bit count in two halves. */
module Sha1 {
  import opened Fips180

  // ------------------------------------------------------------------- one block

  /** `blk0`: swaps the bytes of a word read on a little-endian machine. */
  function Swapped(l: word): word {
    (Rotl(l, 24) & 0xff00ff00) | (Rotl(l, 8) & 0x00ff00ff)
  }

  lemma SwappedIsBigEndian(b0: byte, b1: byte, b2: byte, b3: byte)
    ensures Swapped(LittleEndian(b0, b1, b2, b3)) == BigEndian(b0, b1, b2, b3)
  {
  }

  /** The mixing functions as `R0` and `R3` write them. */
  function Mix0(w: word, x: word, y: word): word {
    (w & (x ^ y)) ^ y
  }

  function Mix3(w: word, x: word, y: word): word {
    ((w | x) & y) | (w & x)
  }

  lemma BitsChosen(w: word, x: word, y: word)
    ensures (w & (x ^ y)) ^ y == (w & x) ^ (!w & y)
    ensures ((w | x) & y) | (w & x) == (w & x) ^ (w & y) ^ (x & y)
  {
  }

  lemma MixesAre(w: word, x: word, y: word)
    ensures Mix0(w, x, y) == Ch(w, x, y) && Mix3(w, x, y) == Maj(w, x, y)
  {
    BitsChosen(w, x, y);
  }

  function Added(z: word, f: word, s: word, k: word, r: word): (z': word)
    ensures z' == Sum(r, f, z, k, s)
  {
    z + (f + s + k + r)
  }

  /** `t & 15`. */
  function Slot(t: nat): (j: nat)
    ensures j < 16 && (t < 16 ==> j == t)
  {
    t % 16
  }

  lemma SlotNumbers(t: nat)
    requires 16 <= t
    ensures Slot(t + 13) == Slot(t - 3) && Slot(t + 8) == Slot(t - 8)
    ensures Slot(t + 2) == Slot(t - 14) && Slot(t) == Slot(t - 16)
  {
  }

  lemma SlotsApart(s: nat, t: nat)
    requires s < t < s + 16
    ensures Slot(s) != Slot(t)
  {
  }

  /** After `t` rounds each slot holds the last schedule word that fell to it, or
      its own raw word while that is still to come. */
  ghost predicate Rolling(l: seq<word>, block: seq<byte>, t: nat)
    requires |block| == 64
  {
    && |l| == 16
    && (forall s :: 0 <= s < t <= s + 16 ==> l[Slot(s)] == W(Words(block), s))
    && (forall j :: t <= j < 16 ==> l[j] == RawWords(block)[j])
  }

  /** What `R0` to `R4` leave in `z`, `t` telling which of them, `s` the word. */
  function Mixed(t: nat, v: word, w: word, x: word, y: word, z: word, s: word): word {
    if t < 20 then Added(z, Mix0(w, x, y), s, 0x5A827999, Rotl(v, 5))
    else if t < 40 then Added(z, Parity(w, x, y), s, 0x6ED9EBA1, Rotl(v, 5))
    else if t < 60 then Added(z, Mix3(w, x, y), s, 0x8F1BBCDC, Rotl(v, 5))
    else Added(z, Parity(w, x, y), s, 0xCA62C1D6, Rotl(v, 5))
  }

  lemma MixedIsStep(t: nat, v: word, w: word, x: word, y: word, z: word, s: word)
    ensures Hash(Mixed(t, v, w, x, y, z, s), v, Rotl(w, 30), x, y) == Step(Hash(v, w, x, y, z), t, s)
  {
    MixesAre(w, x, y);
    hide Rotl, Mix0, Mix3, Parity, Ch, Maj, Added, Sum;
  }

  /** One round, on variables whose names turn: `w` and `z` change in place. */
  method Round(l: array<word>, v: word, w: word, x: word, y: word, z: word, t: nat, ghost block: seq<byte>,
        ghost h: Hash)
      returns (w': word, z': word)
    requires |block| == 64 && t < 80 && Rolling(l[..], block, t)
    requires Hash(v, w, x, y, z) == Rounds(Words(block), t, h)
    modifies l
    ensures Rolling(l[..], block, t + 1)
    ensures Hash(z', v, w', x, y) == Rounds(Words(block), t + 1, h)
  {
    hide Rotl, W, Words, Rolling, Mixed, Step;
    var s := Expand(l, t, block);
    z' := Mixed(t, v, w, x, y, z, s);
    w' := Rotl(w, 30);
    MixedIsStep(t, v, w, x, y, z, s);
  }

  /** `blk0` and `blk`: makes word `t` in the slot of word `t - 16`. */
  method Expand(l: array<word>, t: nat, ghost block: seq<byte>) returns (s: word)
    requires |block| == 64 && t < 80 && Rolling(l[..], block, t)
    modifies l
    ensures Rolling(l[..], block, t + 1) && s == W(Words(block), t)
  {
    ghost var before := l[..];
    if t < 16 {
      FirstWord(before, block, t);
      hide *;
      s := Swapped(l[t]);
    } else {
      Slots(before, block, t);
      hide *;
      s := Turned(l[Slot(t + 13)], l[Slot(t + 8)], l[Slot(t + 2)], l[Slot(t)]);
    }
    RollingStep(before, block, t, s);
    hide *;
    l[Slot(t)] := s;
    assert l[..] == before[Slot(t) := s];
  }

  lemma FirstWord(l: seq<word>, block: seq<byte>, t: nat)
    requires |block| == 64 && t < 16 && Rolling(l, block, t)
    ensures |l| == 16 && Swapped(l[t]) == W(Words(block), t)
  {
    hide Rotl, Swapped, BigEndian, LittleEndian;
    var b0, b1, b2, b3 := block[4 * t], block[4 * t + 1], block[4 * t + 2], block[4 * t + 3];
    SwappedIsBigEndian(b0, b1, b2, b3);
    assert Words(block)[t] == BigEndian(b0, b1, b2, b3) && RawWords(block)[t] == LittleEndian(b0, b1, b2, b3);
    hide Words, RawWords;
  }

  lemma Slots(l: seq<word>, block: seq<byte>, t: nat)
    requires |block| == 64 && 16 <= t && Rolling(l, block, t)
    ensures |l| == 16 && Turned(l[Slot(t + 13)], l[Slot(t + 8)], l[Slot(t + 2)], l[Slot(t)]) == W(Words(block), t)
  {
    SlotNumbers(t);
    hide Words, RawWords, Turned, Slot;
  }

  lemma RollingStep(l: seq<word>, block: seq<byte>, t: nat, s: word)
    requires |block| == 64 && Rolling(l, block, t) && s == W(Words(block), t)
    ensures Rolling(l[Slot(t) := s], block, t + 1)
  {
    hide W, Words, RawWords, Slot;
    forall u: nat | u < t < u + 16
      ensures Slot(u) != Slot(t)
    {
      SlotsApart(u, t);
    }
  }

  /** The block's bytes, seen as sixteen machine words. */
  method Load(block: seq<byte>) returns (l: array<word>)
    requires |block| == 64
    ensures fresh(l) && Rolling(l[..], block, 0)
  {
    l := new word[16](i requires 0 <= i < 16 => RawWords(block)[i]);
  }

  /** Five rounds, after which the names are back in place. */
  method FiveRounds(l: array<word>, a: word, b: word, c: word, d: word, e: word, t: nat,
        ghost block: seq<byte>, ghost h: Hash)
      returns (a': word, b': word, c': word, d': word, e': word)
    requires |block| == 64 && t < 76 && Rolling(l[..], block, t)
    requires Hash(a, b, c, d, e) == Rounds(Words(block), t, h)
    modifies l
    ensures Rolling(l[..], block, t + 5)
    ensures Hash(a', b', c', d', e') == Rounds(Words(block), t + 5, h)
  {
    hide *;
    a', b', c', d', e' := a, b, c, d, e;
    b', e' := Round(l, a', b', c', d', e', t, block, h);
    a', d' := Round(l, e', a', b', c', d', t + 1, block, h);
    e', c' := Round(l, d', e', a', b', c', t + 2, block, h);
    d', b' := Round(l, c', d', e', a', b', t + 3, block, h);
    c', a' := Round(l, b', c', d', e', a', t + 4, block, h);
  }

  method Transform(h: Hash, block: seq<byte>) returns (r: Hash)
    requires |block| == 64
    ensures r == Compress(h, block)
  {
    CompressIs(h, block);
    assert Rounds(Words(block), 0, h) == h;
    hide *;
    var l := Load(block);
    var a, b, c, d, e := h.a, h.b, h.c, h.d, h.e;
    for i := 0 to 16
      invariant Rolling(l[..], block, 5 * i) && Hash(a, b, c, d, e) == Rounds(Words(block), 5 * i, h)
    {
      a, b, c, d, e := FiveRounds(l, a, b, c, d, e, 5 * i, block, h);
    }
    r := Plus(h, Hash(a, b, c, d, e));
  }

  lemma CompressIs(h: Hash, block: seq<byte>)
    requires |block| == 64
    ensures Compress(h, block) == Plus(h, Rounds(Words(block), 80, h))
  {
    hide Words, Plus, Rounds;
  }

  // --------------------------------------------------------------- the bit counter

  /** The counter after `len` more bytes, with the carry as the code takes it. */
  function Counted(lo: nat, hi: nat, len: nat): (r: (nat, nat)) {
    var add := len * 8 % TWO32;
    var lo' := (lo + add) % TWO32;
    var carry := if lo' < add then 1 else 0;
    (lo', (hi + carry + len / 0x2000_0000) % TWO32)
  }

  lemma CountIsBits(lo: nat, hi: nat, len: nat, n: nat)
    requires lo < TWO32 && hi < TWO32 && len < TWO32 && hi * TWO32 + lo == 8 * n % TWO64
    ensures var r := Counted(lo, hi, len);
            r.0 < TWO32 && r.1 < TWO32 && r.1 * TWO32 + r.0 == 8 * (n + len) % TWO64
  {
    var add, q := len * 8 % TWO32, len / 0x2000_0000;
    var lo', carry := (lo + add) % TWO32, (lo + add) / TWO32;
    assert carry == (if lo' < add then 1 else 0);
    assert len * 8 == q * TWO32 + add;
    Halves(8 * n, 8 * len, hi, lo, hi + carry + q, lo');
  }

  /** Adding `more` to a number of which the two halves are kept. */
  lemma Halves(bits: nat, more: nat, hi: nat, lo: nat, top: nat, lo': nat)
    requires hi * TWO32 + lo == bits % TWO64 && hi * TWO32 + lo + more == top * TWO32 + lo' && lo' < TWO32
    ensures top % TWO32 * TWO32 + lo' == (bits + more) % TWO64
  {
    var k := bits / TWO64 + top / TWO32;
    var low := top % TWO32 * TWO32 + lo';
    assert bits + more == k * TWO64 + low;
    Remainder(k, low);
  }

  lemma Remainder(k: nat, low: nat)
    requires low < TWO64
    ensures (k * TWO64 + low) % TWO64 == low
  {
  }

  /** The room taken in the buffer, `(count[0] >> 3) & 63`. */
  lemma CountIsPlace(lo: nat, hi: nat, n: nat)
    requires lo < TWO32 && hi * TWO32 + lo == 8 * n % TWO64
    ensures lo / 8 % 64 == n % 64 && lo % 8 == 0
  {
    assert 8 * n == 8 * n / TWO64 * TWO64 + hi * TWO32 + lo;
    var k := 8 * n / TWO64 * 0x1_0000_0000 + hi;
    assert 8 * n == k * TWO32 + lo;
    assert lo == 8 * (n - k * 0x2000_0000);
    assert n == lo / 8 + 64 * (k * 0x80_0000);
  }

  /** The test of the unsigned sum `j + len` takes the right branch just when the
      sum does not wrap. */
  lemma BranchRightIff(j: nat, len: nat)
    requires j < 64 && len < TWO32
    ensures ((j + len) % TWO32 > 63 <==> j + len > 63) <==> j + len < TWO32
  {
  }

  // ------------------------------------------------------------------- the context

  function Concat(chunks: seq<seq<byte>>): seq<byte> {
    if chunks == [] then [] else Concat(chunks[..|chunks| - 1]) + chunks[|chunks| - 1]
  }

  /** What of the message fills whole blocks. */
  function Whole(m: seq<byte>): (w: seq<byte>)
    ensures |w| % 64 == 0
  {
    m[..|m| - |m| % 64]
  }

  function Tail(m: seq<byte>): seq<byte> {
    m[|m| - |m| % 64..]
  }

  lemma NextBlock(all: seq<byte>, p: nat)
    requires p % 64 == 0 && p + 64 <= |all|
    ensures HashBlocks(all[..p + 64]) == Compress(HashBlocks(all[..p]), all[p..p + 64])
  {
    hide Compress;
    var m := all[..p + 64];
    assert m[..|m| - 64] == all[..p] && m[|m| - 64..] == all[p..p + 64];
  }

  lemma FirstBlock(m: seq<byte>, data: seq<byte>, i: nat)
    requires i == 64 - |m| % 64 && i <= |data|
    ensures HashBlocks((m + data)[..|m| + i]) == Compress(HashBlocks(Whole(m)), Tail(m) + data[..i])
  {
    hide HashBlocks, Compress;
    var all := m + data;
    var p := |m| - |m| % 64;
    NextBlock(all, p);
    assert all[..p] == Whole(m) && all[p..p + 64] == Tail(m) + data[..i];
  }

  lemma LaterBlock(m: seq<byte>, data: seq<byte>, i: nat)
    requires (|m| + i) % 64 == 0 && i + 64 <= |data|
    ensures HashBlocks((m + data)[..|m| + i + 64]) == Compress(HashBlocks((m + data)[..|m| + i]), data[i..i + 64])
  {
    hide HashBlocks, Compress;
    NextBlock(m + data, |m| + i);
    assert (m + data)[|m| + i..|m| + i + 64] == data[i..i + 64];
  }

  lemma Rest(m: seq<byte>, data: seq<byte>, i: nat)
    requires i <= |data| < i + 64 && (|m| + i) % 64 == 0
    ensures Whole(m + data) == (m + data)[..|m| + i] && Tail(m + data) == data[i..]
    ensures |m + data| % 64 == |data| - i
  {
    var n := |m + data|;
    assert n % 64 == |data| - i;
    assert (m + data)[|m| + i..] == data[i..];
  }

  lemma Grown(m: seq<byte>, data: seq<byte>)
    requires |m| % 64 + |data| < 64
    ensures Whole(m + data) == Whole(m) && Tail(m + data) == Tail(m) + data
    ensures |m + data| % 64 == |m| % 64 + |data|
  {
    assert |m + data| % 64 == |m| % 64 + |data|;
  }

  class Context {
    var state: Hash
    var lo: nat
    var hi: nat
    const buffer: array<byte>
    /** Everything hashed so far. */
    ghost var taken: seq<byte>

    ghost predicate CountsTo(n: nat)
      reads this
    {
      lo < TWO32 && hi < TWO32 && hi * TWO32 + lo == 8 * n % TWO64
    }

    ghost predicate Counting()
      reads this
    {
      CountsTo(|taken|)
    }

    ghost predicate Valid()
      reads this, buffer
    {
      && buffer.Length == 64 && Counting()
      && state == HashBlocks(Whole(taken)) && buffer[..|taken| % 64] == Tail(taken)
    }

    constructor ()
      ensures Valid() && taken == [] && fresh(buffer)
    {
      state := Hash(0x67452301, 0xEFCDAB89, 0x98BADCFE, 0x10325476, 0xC3D2E1F0);
      lo, hi := 0, 0;
      buffer := new byte[64];
      taken := [];
    }

    method Copy(j: nat, src: seq<byte>)
      requires j + |src| <= buffer.Length
      modifies buffer
      ensures buffer[..j + |src|] == old(buffer[..j]) + src
    {
      for i := 0 to |src|
        invariant buffer[..j + i] == old(buffer[..j]) + src[..i]
      {
        buffer[j + i] := src[i];
        assert buffer[..j + i + 1] == buffer[..j + i] + [src[i]];
      }
    }

    /** Takes the bytes of `data`, unless the sum of the unsigned `j` and length
        wraps and the copy overruns the buffer. */
    method Update(data: seq<byte>)
      requires Valid() && |taken| % 64 + |data| < TWO32
      modifies this, buffer
      ensures Valid() && taken == old(taken) + data
    {
      hide HashBlocks, Whole, Tail;
      ghost var m := taken;
      var j := Count(|data|);
      var i;
      j, i := Flush(j, data);
      taken := m + data;
      Copy(j, data[i..]);
      assert Counting();
      Refilled(data[i..], j);
    }

    /** Counts `n` more bytes, and tells the place in the buffer before them. */
    method Count(n: nat) returns (j: nat)
      requires Counting() && n < TWO32
      modifies this`lo, this`hi
      ensures j == |taken| % 64 && CountsTo(|taken| + n)
    {
      CountIsPlace(lo, hi, |taken|);
      CountIsBits(lo, hi, n, |taken|);
      j := lo / 8 % 64;
      var count := Counted(lo, hi, n);
      hide *;
      lo, hi := count.0, count.1;
    }

    /** Makes room at `j` for what is left of `data` from `i` on. */
    method Flush(j: nat, data: seq<byte>) returns (j': nat, i: nat)
      requires buffer.Length == 64 && j == |taken| % 64 && j + |data| < TWO32
      requires state == HashBlocks(Whole(taken)) && buffer[..j] == Tail(taken)
      modifies this`state, buffer
      ensures i <= |data| && j' + |data| - i == |taken + data| % 64
      ensures j' + |data| - i < 64
      ensures state == HashBlocks(Whole(taken + data)) && buffer[..j'] + data[i..] == Tail(taken + data)
    {
      hide HashBlocks, Whole, Tail;
      j', i := j, 0;
      if (j + |data|) % TWO32 > 63 {
        i := Absorb(j, data);
        Rest(taken, data, i);
        j' := 0;
      } else {
        Grown(taken, data);
      }
    }

    lemma Refilled(data: seq<byte>, j: nat)
      requires buffer.Length == 64 && Counting() && state == HashBlocks(Whole(taken))
      requires j + |data| == |taken| % 64 && buffer[..j + |data|] == Tail(taken)
      ensures Valid()
    {
    }

    /** Hashes the block that `data` completes, and those it holds. */
    method Absorb(j: nat, data: seq<byte>) returns (i: nat)
      requires buffer.Length == 64 && j == |taken| % 64 && j + |data| > 63
      requires state == HashBlocks(Whole(taken)) && buffer[..j] == Tail(taken)
      modifies this`state, buffer
      ensures i <= |data| < i + 64 && (|taken| + i) % 64 == 0
      ensures state == HashBlocks((taken + data)[..|taken| + i])
    {
      hide HashBlocks, Compress;
      i := 64 - j;
      FirstBlock(taken, data, i);
      Copy(j, data[..i]);
      assert buffer[..] == Tail(taken) + data[..i];
      state := Transform(state, buffer[..]);
      while i + 63 < |data|
        invariant i <= |data| && (|taken| + i) % 64 == 0
        invariant state == HashBlocks((taken + data)[..|taken| + i])
        decreases |data| - i
      {
        LaterBlock(taken, data, i);
        state := Transform(state, data[i..i + 64]);
        i := i + 64;
      }
    }

    /** Pads and gives the digest FIPS 180-4 defines for all the bytes taken. */
    method Final() returns (digest: seq<byte>)
      requires Valid()
      modifies this, buffer
      ensures digest == Digest(old(taken))
      ensures lo == hi == 0 && buffer[..] == Zeros(64) && state == Compress(Hash(0, 0, 0, 0, 0), Zeros(64))
    {
      ghost var m := taken;
      Pad();
      digest := WriteDigest();
      assert Whole(taken) == taken;
      Wipe();
    }

    method Pad()
      requires Valid()
      modifies this, buffer
      ensures Valid() && taken == Padded(old(taken))
    {
      hide HashBlocks, LengthBytes, Zeros, Split, ZerosFor;
      ghost var m := taken;
      var finalcount := Split(hi) + Split(lo);
      HalvesWritten(hi, lo);
      Update([0x80]);
      PadZeros(m);
      Update(finalcount);
    }

    method PadZeros(ghost m: seq<byte>)
      requires Valid() && taken == m + [0x80]
      modifies this, buffer
      ensures Valid() && taken == m + [0x80] + Zeros(ZerosFor(|m|))
    {
      hide HashBlocks, Zeros, ZerosFor, Whole, Tail;
      ghost var k := 0;
      ZerosMore(0);
      assert taken == m + [0x80] + Zeros(k);
      Stops(m, k);
      while lo / 8 % 64 != 56
        invariant Valid() && k <= ZerosFor(|m|) && taken == m + [0x80] + Zeros(k)
        invariant lo / 8 % 64 != 56 <==> k < ZerosFor(|m|)
        decreases ZerosFor(|m|) - k
      {
        hide Counting;
        Update([0]);
        ZerosMore(k);
        k := k + 1;
        assert taken == m + [0x80] + Zeros(k);
        Stops(m, k);
      }
    }

    lemma Stops(m: seq<byte>, k: nat)
      requires Counting() && |taken| == |m| + 1 + k && k <= ZerosFor(|m|)
      ensures lo / 8 % 64 != 56 <==> k < ZerosFor(|m|)
    {
      CountIsPlace(lo, hi, |taken|);
      PadStops(|m|, k);
    }

    method WriteDigest() returns (digest: seq<byte>)
      ensures digest == HashBytes(state)
    {
      hide ByteOf, Part;
      digest := [];
      for i := 0 to 20
        invariant digest == HashBytes(state)[..i]
      {
        digest := digest + [ByteOf(Part(state, i / 4), i % 4)];
      }
    }

    method Wipe()
      requires buffer.Length == 64
      modifies this, buffer
      ensures lo == hi == 0 && buffer[..] == Zeros(64) && state == Compress(Hash(0, 0, 0, 0, 0), Zeros(64))
    {
      hide Compress;
      for i := 0 to 64
        invariant forall k :: 0 <= k < i ==> buffer[k] == 0
      {
        buffer[i] := 0;
      }
      lo, hi := 0, 0;
      assert buffer[..] == Zeros(64);
      state := Transform(Hash(0, 0, 0, 0, 0), buffer[..]);
    }
  }

  lemma ZerosMore(k: nat)
    ensures Zeros(0) == [] && Zeros(k) + [0] == Zeros(k + 1)
  {
  }

  lemma PadStops(n: nat, k: nat)
    requires k <= ZerosFor(n)
    ensures (n + 1 + k) % 64 == 56 <==> k == ZerosFor(n)
  {
    var goal := (55 - n) % 64;
    assert (n + 1 + goal) % 64 == 56;
    assert (n + 1 + goal) % 64 == ((n + 1 + k) % 64 + (goal - k)) % 64;
  }

  lemma HalvesWritten(hi: nat, lo: nat)
    requires hi < TWO32 && lo < TWO32
    ensures hi * TWO32 + lo < TWO64 && LengthBytes(hi * TWO32 + lo) == Split(hi) + Split(lo)
  {
    assert (hi * TWO32 + lo) / TWO32 == hi;
    hide Split;
  }

  lemma ConcatNone(chunks: seq<seq<byte>>)
    ensures Concat(chunks[..0]) == []
  {
  }

  lemma ConcatNext(chunks: seq<seq<byte>>, i: nat)
    requires i < |chunks|
    ensures Concat(chunks[..i + 1]) == Concat(chunks[..i]) + chunks[i]
  {
    assert chunks[..i + 1][..i] == chunks[..i];
  }

  /** However a message is cut into chunks, its digest is that of the whole, as
      long as no chunk and what it finds in the buffer come to 2^32 bytes: then
      the sum that Update tests wraps. */
  method DigestOf(chunks: seq<seq<byte>>) returns (digest: seq<byte>)
    requires forall i :: 0 <= i < |chunks| ==> |Concat(chunks[..i])| % 64 + |chunks[i]| < TWO32
    ensures digest == Digest(Concat(chunks))
  {
    hide Digest, Concat;
    ConcatNone(chunks);
    var c := new Context();
    for i := 0 to |chunks|
      invariant c.Valid() && fresh(c) && fresh(c.buffer) && c.taken == Concat(chunks[..i])
    {
      c.Update(chunks[i]);
      ConcatNext(chunks, i);
    }
    assert chunks[..|chunks|] == chunks;
    digest := c.Final();
  }
}
