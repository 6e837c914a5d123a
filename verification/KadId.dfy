/** Kademlia identifiers: 20-byte strings, their XOR distance, the `memcmp`
    order in which the maps of a lookup are kept, and the bucket index that
    the routing table computes from a table of leading zero counts. */
module KadId {
  import opened Bits

  const ID_BYTES: nat := 20
  const ID_BITS: nat := 160

  type Id = s: seq<bv8> | |s| == ID_BYTES witness seq(ID_BYTES, _ => 0)

  function Xor(a: seq<bv8>, b: seq<bv8>): (r: seq<bv8>)
    requires |a| == |b|
    ensures |r| == |a|
  {
    seq(|a|, i requires 0 <= i < |a| => a[i] ^ b[i])
  }

  function Pow2(n: nat): (p: nat)
    ensures p > 0
  {
    if n == 0 then 1 else 2 * Pow2(n - 1)
  }

  /** The number that a big-endian byte string denotes. */
  function Value(x: seq<bv8>): nat {
    if x == [] then 0 else (x[0] as nat) * Pow2(8 * (|x| - 1)) + Value(x[1..])
  }

  /** The XOR distance between two identifiers. */
  function Dist(a: Id, b: Id): nat {
    Value(Xor(a, b))
  }

  /** `memcmp(a, b, n) < 0`: the order of `kaddist_t`. */
  predicate LexLess(a: seq<bv8>, b: seq<bv8>)
    requires |a| == |b|
  {
    a != [] && (a[0] < b[0] || (a[0] == b[0] && LexLess(a[1..], b[1..])))
  }

  /** Leading zero bits of one byte. */
  function Lz8(b: bv8): (n: nat)
    ensures n <= 8
  {
    if b >= 0x80 then 0
    else if b >= 0x40 then 1
    else if b >= 0x20 then 2
    else if b >= 0x10 then 3
    else if b >= 0x08 then 4
    else if b >= 0x04 then 5
    else if b >= 0x02 then 6
    else if b >= 0x01 then 7
    else 8
  }

  /** Leading zero bits of a byte string. */
  function Lz(x: seq<bv8>): (n: nat)
    ensures n <= 8 * |x|
  {
    if x == [] then 0
    else if x[0] == 0 then 8 + Lz(x[1..])
    else Lz8(x[0])
  }

  // ---------------------------------------------------------------- the code

  /** `mtable`: 256 entries in nine runs. */
  const MTABLE: seq<nat> :=
    [8] + [7] + seq(2, _ => 6) + seq(4, _ => 5) + seq(8, _ => 4) + seq(16, _ => 3)
    + seq(32, _ => 2) + seq(64, _ => 1) + seq(128, _ => 0)

  lemma TableCountsZeros(b: bv8)
    ensures |MTABLE| == 256
    ensures MTABLE[b as nat] == Lz8(b)
  {
    var k := b as nat;
    assert k >= 128 <==> b >= 0x80;
    assert k >= 64 <==> b >= 0x40;
    assert k >= 32 <==> b >= 0x20;
    assert k >= 16 <==> b >= 0x10;
    assert k >= 8 <==> b >= 0x08;
    assert k >= 4 <==> b >= 0x04;
    assert k >= 2 <==> b >= 0x02;
    assert k >= 1 <==> b >= 0x01;
  }

  method Bit1StartAt(target: seq<bv8>) returns (index: nat)
    ensures index == Lz(target)
  {
    index := 0;
    var midx: bv8 := 0;
    var i := 0;
    while i < |target| && midx == 0
      invariant 0 <= i <= |target|
      invariant index + (if midx == 0 then Lz(target[i..]) else 0) == Lz(target)
    {
      midx := target[i];
      TableCountsZeros(midx);
      assert target[i..][1..] == target[i + 1..];
      index := index + MTABLE[midx as nat];
      i := i + 1;
    }
  }

  method Bit1IndexOf(tableId: Id, target: Id) returns (index: nat)
    ensures index == Lz(Xor(tableId, target)) <= ID_BITS
  {
    var shadow: seq<bv8> := [];
    for i := 0 to ID_BYTES
      invariant |shadow| == i
      invariant forall j :: 0 <= j < i ==> shadow[j] == target[j] ^ tableId[j]
    {
      shadow := shadow + [target[i] ^ tableId[i]];
    }
    assert shadow == Xor(tableId, target);
    index := Bit1StartAt(shadow);
  }

  // ------------------------------------------------- bits and common prefixes

  lemma BytePrefix(a: bv8, b: bv8, k: nat)
    requires k < 8
    ensures k < Lz8(a ^ b) ==> ByteBit(a, k) == ByteBit(b, k)
    ensures k == Lz8(a ^ b) ==> ByteBit(a, k) != ByteBit(b, k)
    ensures a == b <==> a ^ b == 0
  {
  }

  /** The bucket index is the length of the common prefix: the identifiers
      agree on every bit before it and differ on that bit. */
  lemma {:induction false} IndexIsCommonPrefix(a: seq<bv8>, b: seq<bv8>, k: nat)
    requires |a| == |b| && k < 8 * |a|
    ensures k < Lz(Xor(a, b)) ==> Bit(a, k) == Bit(b, k)
    ensures k == Lz(Xor(a, b)) ==> Bit(a, k) != Bit(b, k)
    decreases |a|
  {
    hide Lz8, ByteBit, Lz;
    LzStep(a, b);
    BytePrefix(a[0], b[0], k % 8);
    if k >= 8 {
      IndexIsCommonPrefix(a[1..], b[1..], k - 8);
      BitTail(a, k);
      BitTail(b, k);
    }
  }

  lemma BitTail(a: seq<bv8>, k: nat)
    requires 8 <= k < 8 * |a|
    ensures Bit(a, k) == Bit(a[1..], k - 8)
  {
    assert k / 8 - 1 == (k - 8) / 8 && k % 8 == (k - 8) % 8;
  }

  lemma LzStep(a: seq<bv8>, b: seq<bv8>)
    requires |a| == |b| > 0
    ensures Lz(Xor(a, b)) == if a[0] ^ b[0] == 0 then 8 + Lz(Xor(a[1..], b[1..])) else Lz8(a[0] ^ b[0])
    ensures a[0] ^ b[0] != 0 ==> Lz8(a[0] ^ b[0]) < 8
  {
    assert Xor(a, b)[1..] == Xor(a[1..], b[1..]);
  }

  // ------------------------------------------------------ distances as numbers

  lemma {:induction false} Pow2Add(m: nat, n: nat)
    ensures Pow2(m + n) == Pow2(m) * Pow2(n)
  {
    if m > 0 {
      Pow2Add(m - 1, n);
      assert Pow2(m + n) == 2 * Pow2(m - 1 + n) && Pow2(m) == 2 * Pow2(m - 1);
      hide Pow2;
      DoubleFirst(Pow2(m - 1), Pow2(n));
    }
  }

  lemma DoubleFirst(a: int, b: int)
    ensures 2 * (a * b) == (2 * a) * b
  {
  }

  lemma Pow2Monotone(m: nat, n: nat)
    requires m <= n
    ensures Pow2(m) <= Pow2(n)
    decreases n - m
  {
    if m < n {
      Pow2Monotone(m + 1, n);
    }
  }

  lemma Pow2Small()
    ensures Pow2(0) == 1 && Pow2(1) == 2 && Pow2(2) == 4 && Pow2(3) == 8 && Pow2(4) == 16
    ensures Pow2(5) == 32 && Pow2(6) == 64 && Pow2(7) == 128 && Pow2(8) == 256
  {
    assert Pow2(2) == 4 && Pow2(4) == 16 && Pow2(6) == 64;
  }

  lemma {:induction false} ValueBelow(x: seq<bv8>)
    ensures Value(x) < Pow2(8 * |x|)
  {
    if x != [] {
      var p := Pow2(8 * (|x| - 1));
      ValueBelow(x[1..]);
      Pow2Add(8, 8 * (|x| - 1));
      Pow2Small();
      MulBound(x[0] as nat, 256, p, Value(x[1..]));
    }
  }

  lemma MulBound(v: nat, bound: nat, p: nat, r: nat)
    requires v < bound && r < p
    ensures v * p <= v * p + r < bound * p
  {
    assert v * p + r < (v + 1) * p <= bound * p;
  }

  /** `Lz` locates the distance between two consecutive powers of two. */
  lemma {:induction false} LzBrackets(x: seq<bv8>)
    ensures Value(x) < Pow2(8 * |x| - Lz(x))
    ensures Lz(x) < 8 * |x| ==> Value(x) >= Pow2(8 * |x| - Lz(x) - 1)
    ensures Lz(x) == 8 * |x| <==> Value(x) == 0
  {
    hide Pow2, Lz8;
    if x == [] {
      Pow2Small();
    } else {
      LzBrackets(x[1..]);
      ValueBelow(x[1..]);
      if x[0] != 0 {
        BracketHead(x[0], |x| - 1, Value(x[1..]));
      }
    }
  }

  lemma BracketHead(b: bv8, n: nat, r: nat)
    requires b != 0 && r < Pow2(8 * n)
    ensures Lz8(b) < 8
    ensures Pow2(8 * n + 7 - Lz8(b)) <= (b as nat) * Pow2(8 * n) + r < Pow2(8 * n + 8 - Lz8(b))
  {
    hide Pow2, Lz8;
    ByteBrackets(b);
    var k, p := Lz8(b), Pow2(8 * n);
    Pow2Add(8 - k, 8 * n);
    Pow2Add(7 - k, 8 * n);
    MulBound(b as nat, Pow2(8 - k), p, r);
    MulMono(Pow2(7 - k), b as nat, p);
  }

  lemma MulMono(a: nat, b: nat, p: nat)
    requires a <= b
    ensures a * p <= b * p
  {
  }

  lemma ByteBrackets(b: bv8)
    requires b != 0
    ensures Lz8(b) < 8
    ensures Pow2(7 - Lz8(b)) <= b as nat < Pow2(8 - Lz8(b))
  {
    Pow2Small();
    TableCountsZeros(b);
  }

  /** The `memcmp` order of distances is the order of the numbers they denote,
      and distinct distances denote distinct numbers. */
  lemma {:induction false} OrderIsNumeric(a: seq<bv8>, b: seq<bv8>)
    requires |a| == |b|
    ensures LexLess(a, b) <==> Value(a) < Value(b)
    ensures a == b <==> Value(a) == Value(b)
  {
    if a != [] {
      OrderIsNumeric(a[1..], b[1..]);
      FirstDigit(a, b);
      hide Value;
      assert a == [a[0]] + a[1..] && b == [b[0]] + b[1..];
    }
  }

  /** The first bytes decide, and the rest when they are equal. */
  lemma ValueOnce(x: seq<bv8>)
    requires x != []
    ensures Value(x) == (x[0] as nat) * Pow2(8 * (|x| - 1)) + Value(x[1..])
  {
  }

  lemma FirstDigit(a: seq<bv8>, b: seq<bv8>)
    requires |a| == |b| > 0
    ensures Value(a) < Value(b) <==> a[0] < b[0] || (a[0] == b[0] && Value(a[1..]) < Value(b[1..]))
    ensures Value(a) == Value(b) <==> a[0] == b[0] && Value(a[1..]) == Value(b[1..])
  {
    var p := Pow2(8 * (|a| - 1));
    var u, v := a[0] as nat, b[0] as nat;
    hide *;
    ValueBelow(a[1..]);
    ValueBelow(b[1..]);
    ByteOrder(a[0], b[0]);
    ValueOnce(a);
    ValueOnce(b);
    Digits(u, v, p, Value(a[1..]), Value(b[1..]));
  }

  lemma Digits(u: nat, v: nat, p: nat, r: nat, q: nat)
    requires r < p && q < p
    ensures u * p + r < v * p + q <==> u < v || (u == v && r < q)
    ensures u * p + r == v * p + q <==> u == v && r == q
  {
    if u < v {
      MulBound(u, v, p, r);
    } else if v < u {
      MulBound(v, u, p, q);
    }
  }

  lemma ByteOrder(a: bv8, b: bv8)
    ensures a < b <==> (a as nat) < (b as nat)
    ensures a == b <==> (a as nat) == (b as nat)
  {
  }

  lemma XorInjective(a: seq<bv8>, b: seq<bv8>, t: seq<bv8>)
    requires |a| == |b| == |t|
    requires Xor(a, t) == Xor(b, t)
    ensures a == b
  {
    forall i | 0 <= i < |a|
      ensures a[i] == b[i]
    {
      assert Xor(a, t)[i] == Xor(b, t)[i];
      assert (a[i] ^ t[i]) ^ t[i] == a[i] && (b[i] ^ t[i]) ^ t[i] == b[i];
    }
  }

  /** A distance from the target names one identifier, so keying a map by the
      distance is keying it by the identifier. */
  lemma DistNamesId(a: Id, b: Id, t: Id)
    ensures Dist(a, t) == Dist(b, t) <==> a == b
  {
    OrderIsNumeric(Xor(a, t), Xor(b, t));
    if Xor(a, t) == Xor(b, t) {
      XorInjective(a, b, t);
    }
  }

  // ------------------------------------------------- prefixes form an ultrametric

  lemma ByteUltrametric(u: bv8, v: bv8)
    ensures Lz8(u) < Lz8(v) ==> Lz8(u ^ v) == Lz8(u) && Lz8(v ^ u) == Lz8(u)
    ensures Lz8(u) == Lz8(v) < 8 ==> Lz8(u ^ v) > Lz8(u)
    ensures Lz8(u) == 8 <==> u == 0
  {
  }

  lemma LzHead(x: seq<bv8>)
    requires x != []
    ensures Lz(x) == if x[0] == 0 then 8 + Lz(x[1..]) else Lz8(x[0])
    ensures x[0] != 0 ==> Lz8(x[0]) < 8
    ensures x[0] == 0 ==> Lz8(x[0]) == 8
  {
  }

  lemma {:induction false} LzUltrametric(x: seq<bv8>, y: seq<bv8>)
    requires |x| == |y|
    ensures Lz(x) < Lz(y) ==> Lz(Xor(x, y)) == Lz(x)
    ensures Lz(y) < Lz(x) ==> Lz(Xor(x, y)) == Lz(y)
    ensures Lz(x) == Lz(y) < 8 * |x| ==> Lz(Xor(x, y)) > Lz(x)
  {
    hide Lz8, Lz;
    if x != [] {
      LzStep(x, y);
      LzUltrametric(x[1..], y[1..]);
      LzHead(x);
      LzHead(y);
      ByteUltrametric(x[0], y[0]);
      ByteUltrametric(y[0], x[0]);
      ByteXorZero(x[0], y[0]);
    }
  }

  lemma ByteXorZero(u: bv8, v: bv8)
    ensures u ^ v == 0 <==> u == v
  {
  }

  /** Where a node of bucket `i` stands seen from a target of index `o`. */
  lemma IndexSeenFrom(s: Id, a: Id, t: Id)
    ensures var i, o := Lz(Xor(s, a)), Lz(Xor(s, t));
            var l := Lz(Xor(a, t));
            && (i < o ==> l == i)
            && (i > o ==> l == o)
            && (i == o < ID_BITS ==> l > o)
  {
    var x, y := Xor(s, a), Xor(s, t);
    LzUltrametric(x, y);
    assert Xor(x, y) == Xor(a, t) by {
      forall k | 0 <= k < ID_BYTES
        ensures Xor(x, y)[k] == Xor(a, t)[k]
      {
        var sk, ak, tk := s[k], a[k], t[k];
        assert (sk ^ ak) ^ (sk ^ tk) == ak ^ tk;
      }
    }
  }

  /** Sharing at least as long a prefix with the target as `b` does means being
      less than twice as far away. */
  lemma LongerPrefixIsNear(a: Id, b: Id, t: Id)
    requires Lz(Xor(a, t)) >= Lz(Xor(b, t))
    requires Lz(Xor(b, t)) < ID_BITS
    ensures Dist(a, t) < 2 * Dist(b, t)
  {
    var la, lb := Lz(Xor(a, t)), Lz(Xor(b, t));
    LzBrackets(Xor(a, t));
    LzBrackets(Xor(b, t));
    Pow2Monotone(ID_BITS - la, ID_BITS - lb);
    assert Pow2(ID_BITS - lb) == 2 * Pow2(ID_BITS - lb - 1);
  }
}
