/** Block sets of the download client: one bit per block, the last byte padded
    with bits that mean nothing. */
module BitSets {
  import opened Bits

  function Bytes(nbits: nat): nat {
    (nbits + 7) / 8
  }

  /** The bytes that are allocated for a set, one more than needed for most. */
  function Allocated(nbits: nat): nat {
    Bytes(nbits) + if nbits % 8 != 0 then 1 else 0
  }

  /** The set that a byte string denotes; pad bits do not matter. */
  ghost function Members(x: seq<bv8>, nbits: nat): (s: set<nat>)
    requires |x| >= Bytes(nbits)
    ensures forall k: nat :: k in s <==> k < nbits && Bit(x, k)
  {
    set k: nat | k < nbits && Bit(x, k)
  }

  predicate Within(k: nat, lo: nat, hi: nat) {
    lo <= k < hi
  }

  function Range(lo: nat, hi: nat): (s: set<nat>)
    ensures forall k: nat :: k in s <==> lo <= k < hi
  {
    set k: nat | lo <= k < hi && Within(k, lo, hi)
  }

  /** What a set becomes when its first bytes are written over. */
  function Overlaid(s: set<nat>, data: seq<bv8>, nbits: nat): (r: set<nat>)
    ensures forall k: nat :: k in r <==> k < nbits && if k / 8 < |data| then Bit(data, k) else k in s
  {
    set k: nat | k < nbits && (if k / 8 < |data| then Bit(data, k) else k in s)
  }

  // --------------------------------------------- bytes as eight members at a time

  lemma SetByte(x: seq<bv8>, nbits: nat, i: nat, b: bv8)
    requires |x| >= Bytes(nbits) && i < |x|
    ensures forall k: nat :: k < nbits ==>
              (Bit(x[i := b], k) <==> if k / 8 == i then ByteBit(b, k % 8) else Bit(x, k))
  {
    hide ByteBit;
  }

  lemma SetOne(x: seq<bv8>, nbits: nat, bit: nat)
    requires |x| >= Bytes(nbits) && bit < nbits
    ensures Members(x[bit / 8 := x[bit / 8] | Mask(bit % 8)], nbits) == Members(x, nbits) + {bit}
  {
    hide ByteBit, Mask;
    var i, b := bit / 8, x[bit / 8] | Mask(bit % 8);
    SetByte(x, nbits, i, b);
    forall k: nat | k < nbits && k / 8 == i
      ensures ByteBit(b, k % 8) <==> k == bit || Bit(x, k)
    {
      ByteOr(x[i], bit % 8, k % 8);
    }
  }

  lemma ClearOne(x: seq<bv8>, nbits: nat, bit: nat)
    requires |x| >= Bytes(nbits) && bit < nbits
    ensures Members(x[bit / 8 := x[bit / 8] & !Mask(bit % 8)], nbits) == Members(x, nbits) - {bit}
  {
    hide ByteBit, Mask;
    var i, b := bit / 8, x[bit / 8] & !Mask(bit % 8);
    SetByte(x, nbits, i, b);
    forall k: nat | k < nbits && k / 8 == i
      ensures ByteBit(b, k % 8) <==> k != bit && Bit(x, k)
    {
      ByteClear(x[i], bit % 8, k % 8);
    }
  }

  lemma FillByte(x: seq<bv8>, nbits: nat, i: nat)
    requires |x| >= Bytes(nbits) && 8 * (i + 1) <= nbits
    ensures Members(x[i := 0xff], nbits) == Members(x, nbits) + Range(8 * i, 8 * (i + 1))
  {
    hide ByteBit;
    SetByte(x, nbits, i, 0xff);
    forall k: nat | k < nbits && k / 8 == i
      ensures ByteBit(0xff, k % 8) && 8 * i <= k < 8 * (i + 1)
    {
      ByteFull(k % 8);
    }
  }

  lemma BitsOfAnd(a: seq<bv8>, b: seq<bv8>, r: seq<bv8>, nbits: nat)
    requires |a| >= Bytes(nbits) && |b| >= Bytes(nbits) && |r| >= Bytes(nbits)
    requires forall i :: 0 <= i < Bytes(nbits) ==> r[i] == a[i] & b[i]
    ensures Members(r, nbits) == Members(a, nbits) * Members(b, nbits)
  {
    hide ByteBit;
    forall k: nat | k < nbits
      ensures Bit(r, k) <==> Bit(a, k) && Bit(b, k)
    {
      ByteAnd(a[k / 8], b[k / 8], k % 8);
    }
  }

  lemma BitsOfNot(a: seq<bv8>, r: seq<bv8>, nbits: nat)
    requires |a| >= Bytes(nbits) && |r| >= Bytes(nbits)
    requires forall i :: 0 <= i < Bytes(nbits) ==> r[i] == !a[i]
    ensures Members(r, nbits) == Range(0, nbits) - Members(a, nbits)
  {
    hide ByteBit;
    forall k: nat | k < nbits
      ensures Bit(r, k) <==> !Bit(a, k)
    {
      ByteNot(a[k / 8], k % 8);
    }
  }

  /** No bit of `lo` up to `hi` is set. */
  ghost predicate Blank(x: seq<bv8>, lo: nat, hi: nat)
    requires hi <= 8 * |x|
  {
    forall k: nat :: lo <= k < hi ==> !Bit(x, k)
  }

  lemma PartOfByte(x: seq<bv8>, n: nat, width: nat)
    requires n < |x| && width <= 8
    ensures Blank(x, 8 * n, 8 * n + width) <==> forall k :: 0 <= k < width ==> !ByteBit(x[n], k)
  {
    hide ByteBit;
    forall k: nat | k < width
      ensures Bit(x, 8 * n + k) == ByteBit(x[n], k)
    {
      assert (8 * n + k) / 8 == n && (8 * n + k) % 8 == k;
    }
    forall k: nat | 8 * n <= k < 8 * n + width
      ensures Bit(x, k) == ByteBit(x[n], k - 8 * n)
    {
      assert k / 8 == n && k % 8 == k - 8 * n;
    }
  }

  lemma WholeByte(x: seq<bv8>, n: nat)
    requires n < |x|
    ensures x[n] == 0 <==> Blank(x, 8 * n, 8 * n + 8)
  {
    ByteTail(x[n], 0);
    assert x[n] & 0xff == x[n];
    PartOfByte(x, n, 8);
  }

  lemma {:induction false} ZeroBytes(x: seq<bv8>, n: nat)
    requires n <= |x|
    ensures (forall i :: 0 <= i < n ==> x[i] == 0) <==> Blank(x, 0, 8 * n)
  {
    hide Bit;
    if n > 0 {
      ZeroBytes(x, n - 1);
      WholeByte(x, n - 1);
    }
  }

  /** All whole bytes are zero and so is the unpadded part of the last one, if
      and only if the set is empty: pad bits do not count. */
  lemma ZeroBytesIffEmpty(x: seq<bv8>, nbits: nat)
    requires nbits > 0 && |x| >= Bytes(nbits)
    ensures var last := Bytes(nbits) - 1;
            ((forall n :: 0 <= n < last ==> x[n] == 0) && x[last] & TailMask(nbits % 8) == 0)
            <==> Members(x, nbits) == {}
  {
    var last := Bytes(nbits) - 1;
    var pad := nbits % 8;
    var width := if pad == 0 then 8 else pad;
    assert nbits == 8 * last + width;
    hide Bit, ByteBit, TailMask, Blank, Members, Bytes;
    ZeroBytes(x, last);
    TailZero(x, last, pad, width);
    BlankIffEmpty(x, nbits, 8 * last);
  }

  lemma TailZero(x: seq<bv8>, last: nat, pad: nat, width: nat)
    requires last < |x| && pad < 8 && width == if pad == 0 then 8 else pad
    ensures x[last] & TailMask(pad) == 0 <==> Blank(x, 8 * last, 8 * last + width)
  {
    hide Bit, ByteBit, TailMask, Blank;
    ByteTail(x[last], pad);
    PartOfByte(x, last, width);
  }

  lemma BlankIffEmpty(x: seq<bv8>, nbits: nat, mid: nat)
    requires |x| >= Bytes(nbits) && mid <= nbits
    ensures Members(x, nbits) == {} <==> Blank(x, 0, mid) && Blank(x, mid, nbits)
  {
    hide Bit;
    if !(Blank(x, 0, mid) && Blank(x, mid, nbits)) {
      var k: nat :| k < nbits && Bit(x, k);
      assert k in Members(x, nbits);
    }
  }

  lemma BytesOver(x: seq<bv8>, y: seq<bv8>, data: seq<bv8>, nbits: nat)
    requires |x| == |y| >= Bytes(nbits) && |data| <= |x|
    requires y[..|data|] == data && y[|data|..] == x[|data|..]
    ensures Members(y, nbits) == Overlaid(Members(x, nbits), data, nbits)
  {
    hide ByteBit;
    forall k: nat | k < nbits
      ensures Bit(y, k) <==> if k / 8 < |data| then Bit(data, k) else Bit(x, k)
    {
      var i := k / 8;
      if i < |data| {
        assert y[i] == y[..|data|][i];
      } else {
        assert y[i] == y[|data|..][i - |data|] && x[i] == x[|data|..][i - |data|];
      }
    }
  }

  // ------------------------------------------------------------------- the class

  class BitSet {
    const nbits: nat
    const bits: array<bv8>

    ghost predicate Valid() {
      bits.Length >= Bytes(nbits)
    }

    ghost function Set(): set<nat>
      requires Valid()
      reads bits
    {
      Members(bits[..], nbits)
    }

    constructor (nbits: nat)
      ensures Valid() && this.nbits == nbits && Set() == {} && fresh(bits) && bits.Length == Allocated(nbits)
    {
      this.nbits := nbits;
      bits := new bv8[Allocated(nbits)](_ => 0);
      new;
      forall k: nat | k < nbits
        ensures !Bit(bits[..], k)
      {
        assert bits[..][k / 8] == 0;
      }
    }

    method SetBit(bit: nat)
      requires Valid() && bit < nbits
      modifies bits
      ensures Set() == old(Set()) + {bit}
    {
      hide Mask, Members;
      SetOne(bits[..], nbits, bit);
      bits[bit / 8] := bits[bit / 8] | Mask(bit % 8);
    }

    method ClearBit(bit: nat)
      requires Valid() && bit < nbits
      modifies bits
      ensures Set() == old(Set()) - {bit}
    {
      hide Mask, Members;
      ClearOne(bits[..], nbits, bit);
      bits[bit / 8] := bits[bit / 8] & !Mask(bit % 8);
    }

    method IsSet(bit: nat) returns (r: bool)
      requires Valid() && bit < nbits
      ensures r <==> bit in Set()
    {
      r := bits[bit / 8] & Mask(bit % 8) != 0;
    }

    /** `kBitSet_readBytes`: writes over the first bytes, or ends the program when
        there are too many. */
    method ReadBytes(data: seq<bv8>) returns (died: bool)
      requires Valid()
      modifies bits
      ensures died <==> |data| > Bytes(nbits)
      ensures Set() == if died then old(Set()) else Overlaid(old(Set()), data, nbits)
    {
      died := |data| > Bytes(nbits);
      if died {
        return;
      }
      for i := 0 to |data|
        invariant bits[..i] == data[..i] && bits[|data|..] == old(bits[|data|..])
      {
        bits[i] := data[i];
        assert bits[..i + 1] == bits[..i] + [data[i]];
      }
      BytesOver(old(bits[..]), bits[..], data, nbits);
    }

    /** Adds `start` up to `endplus1`, eight blocks at a time where it can. */
    method SetRange(start: nat, endplus1: nat)
      requires Valid() && endplus1 <= nbits
      modifies bits
      ensures Set() == old(Set()) + Range(start, endplus1)
    {
      hide Members, Mask;
      var bit := start;
      assert Range(start, start) == {} && (start >= endplus1 ==> Range(start, endplus1) == {});
      while bit < endplus1
        invariant start <= bit && (bit <= endplus1 || bit == start)
        invariant Set() == old(Set()) + Range(start, bit)
      {
        assert Range(start, bit) + {bit} == Range(start, bit + 1);
        if bit % 8 == 0 && bit + 8 < endplus1 {
          assert Range(start, bit) + Range(bit, bit + 8) == Range(start, bit + 8);
          FillByte(bits[..], nbits, bit / 8);
          bits[bit / 8] := 0xff;
          bit := bit + 7;
        } else {
          SetBit(bit);
        }
        bit := bit + 1;
      }
    }

    /** Puts `a` without padding in mind; `this` may be `a`. */
    method Complement(a: BitSet)
      requires Valid() && a.Valid() && nbits == a.nbits
      modifies bits
      ensures Set() == Range(0, nbits) - old(a.Set())
    {
      hide Members;
      for n := 0 to Bytes(nbits)
        invariant forall i :: 0 <= i < n ==> bits[i] == !old(a.bits[i])
        invariant forall i :: n <= i < Bytes(nbits) ==> a.bits[i] == old(a.bits[i])
      {
        bits[n] := !a.bits[n];
      }
      BitsOfNot(old(a.bits[..]), bits[..], nbits);
    }

    /** The blocks in both; `this` may be `a`. */
    method Intersect(a: BitSet, b: BitSet)
      requires Valid() && a.Valid() && b.Valid() && nbits == a.nbits == b.nbits && bits != b.bits
      modifies bits
      ensures Set() == old(a.Set()) * b.Set()
    {
      hide Members;
      for n := 0 to Bytes(nbits)
        invariant forall i :: 0 <= i < n ==> bits[i] == old(a.bits[i]) & b.bits[i]
        invariant forall i :: n <= i < Bytes(nbits) ==> a.bits[i] == old(a.bits[i])
      {
        bits[n] := a.bits[n] & b.bits[n];
      }
      BitsOfAnd(old(a.bits[..]), b.bits[..], bits[..], nbits);
    }

    method IsEmpty() returns (r: bool)
      requires Valid() && nbits > 0
      ensures r <==> Set() == {}
    {
      hide Members, TailMask;
      ZeroBytesIffEmpty(bits[..], nbits);
      var bytes := Bytes(nbits);
      for n := 0 to bytes - 1
        invariant forall i :: 0 <= i < n ==> bits[i] == 0
      {
        if bits[n] != 0 {
          return false;
        }
      }
      r := bits[bytes - 1] & TailMask(nbits % 8) == 0;
    }

    method IsFull() returns (r: bool)
      requires Valid() && nbits > 0
      ensures r <==> Set() == Range(0, nbits)
    {
      var c := new BitSet(nbits);
      c.Complement(this);
      InRange(bits[..], nbits);
      MissingNone(Set(), Range(0, nbits));
      r := c.IsEmpty();
    }

    /** The first block that is missing, or 0 when none is. */
    method FirstClr() returns (k: nat)
      requires Valid()
      ensures Set() == Range(0, nbits) ==> k == 0
      ensures Set() != Range(0, nbits) ==> k < nbits && k !in Set() && forall j :: 0 <= j < k ==> j in Set()
    {
      k := 0;
      while k < nbits
        invariant k <= nbits && forall j :: 0 <= j < k ==> j in Set()
      {
        var set? := IsSet(k);
        if !set? {
          return;
        }
        k := k + 1;
      }
      assert Set() == Range(0, nbits);
      k := 0;
    }

    /** The blocks in increasing order. */
    method GetSparseSet() returns (data: seq<nat>)
      requires Valid()
      ensures forall i, j :: 0 <= i < j < |data| ==> data[i] < data[j]
      ensures forall k :: k in data <==> k in Set()
    {
      data := [];
      for n := 0 to nbits
        invariant forall i :: 0 <= i < |data| ==> data[i] < n
        invariant forall i, j :: 0 <= i < j < |data| ==> data[i] < data[j]
        invariant forall k :: k in data <==> k < n && k in Set()
      {
        var set? := IsSet(n);
        if set? {
          data := data + [n];
        }
      }
    }

    method CountBits() returns (count: nat)
      requires Valid()
      ensures count == |Set()|
    {
      count := 0;
      ghost var seen: set<nat> := {};
      for n := 0 to nbits
        invariant seen == (set k | k in Set() && k < n) && count == |seen|
      {
        var set? := IsSet(n);
        if set? {
          count := count + 1;
          seen := seen + {n};
        }
      }
      assert seen == Set();
    }
  }

  /** The blocks a peer has that are wanted and not yet in `reqs`. */
  method Candidates(reqs: BitSet, peer: BitSet, intr: BitSet) returns (r: BitSet)
    requires reqs.Valid() && peer.Valid() && intr.Valid() && reqs.nbits == peer.nbits == intr.nbits
    ensures fresh(r) && fresh(r.bits) && r.Valid() && r.nbits == peer.nbits
    ensures r.Set() == (peer.Set() * intr.Set()) - reqs.Set()
  {
    hide Members;
    r := new BitSet(peer.nbits);
    r.Complement(reqs);
    r.Intersect(r, peer);
    r.Intersect(r, intr);
    assert peer.Set() <= Range(0, peer.nbits) by {
      InRange(peer.bits[..], peer.nbits);
    }
  }

  lemma MissingNone(a: set<nat>, b: set<nat>)
    requires a <= b
    ensures b - a == {} <==> a == b
  {
    if b - a == {} {
      assert forall k :: k in b ==> k in a || k in b - a;
    }
  }

  lemma InRange(x: seq<bv8>, nbits: nat)
    requires |x| >= Bytes(nbits)
    ensures Members(x, nbits) <= Range(0, nbits)
  {
  }

  method HasInteresting(reqs: BitSet, peer: BitSet, intr: BitSet) returns (interesting: bool)
    requires reqs.Valid() && peer.Valid() && intr.Valid() && reqs.nbits == peer.nbits == intr.nbits > 0
    ensures interesting <==> (peer.Set() * intr.Set()) - reqs.Set() != {}
  {
    var r := Candidates(reqs, peer, intr);
    var empty := r.IsEmpty();
    interesting := !empty;
  }

  /** A block to ask a peer for, or -1; `rnd` makes the random choice. The list
      of picks is never empty when it is consulted. */
  method PickBlock(reqs: BitSet, peer: BitSet, intr: BitSet, rnd: nat -> nat) returns (block: int)
    requires reqs.Valid() && peer.Valid() && intr.Valid() && reqs.nbits == peer.nbits == intr.nbits > 0
    requires forall n :: n > 0 ==> rnd(n) < n
    ensures block == -1 <==> (peer.Set() * intr.Set()) - reqs.Set() == {}
    ensures block != -1 ==> block >= 0 && block in peer.Set() && block in intr.Set() && block !in reqs.Set()
  {
    var r := Candidates(reqs, peer, intr);
    var empty := r.IsEmpty();
    if empty {
      return -1;
    }
    var picks := r.GetSparseSet();
    assert picks != [] by {
      var k :| k in r.Set();
      assert k in picks;
    }
    block := picks[rnd(|picks|)];
    assert block in picks;
  }
}
