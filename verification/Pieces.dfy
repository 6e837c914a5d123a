/** The pieces of a torrent: how long each is and how much a set of them holds. */
module Pieces {

  datatype Torrent = Torrent(npieces: nat, blocksize: nat, tsize: nat)

  /** `seg_piecelen`: only the last piece may be short. */
  function PieceLen(t: Torrent, piece: nat): nat {
    if piece + 1 == t.npieces && t.blocksize > 0 && t.tsize % t.blocksize != 0 then t.tsize % t.blocksize
    else t.blocksize
  }

  /** The bytes held by those of the first `n` pieces that are in `s`. */
  ghost function Total(t: Torrent, s: set<nat>, n: nat): nat {
    if n == 0 then 0 else Total(t, s, n - 1) + if n - 1 in s then PieceLen(t, n - 1) else 0
  }

  /** The number of pieces is right for the size. */
  ghost predicate Consistent(t: Torrent) {
    t.npieces > 0 && t.blocksize > 0 && (t.npieces - 1) * t.blocksize < t.tsize <= t.npieces * t.blocksize
  }

  lemma {:induction false} TotalAdd(t: Torrent, s: set<nat>, piece: nat, n: nat)
    requires piece !in s
    ensures Total(t, s + {piece}, n) == Total(t, s, n) + if piece < n then PieceLen(t, piece) else 0
  {
    if n > 0 {
      TotalAdd(t, s, piece, n - 1);
    }
  }

  lemma {:induction false} TotalEmpty(t: Torrent, n: nat)
    ensures Total(t, {}, n) == 0
  {
    if n > 0 {
      TotalEmpty(t, n - 1);
    }
  }

  lemma {:induction false} TotalPlain(t: Torrent, s: set<nat>, n: nat)
    requires n < t.npieces && forall k: nat :: k < n ==> k in s
    ensures Total(t, s, n) == n * t.blocksize
  {
    if n > 0 {
      TotalPlain(t, s, n - 1);
    }
  }

  /** All pieces together are the whole torrent. */
  lemma AllPieces(t: Torrent, s: set<nat>)
    requires Consistent(t) && forall k: nat :: k < t.npieces ==> k in s
    ensures Total(t, s, t.npieces) == t.tsize
  {
    var n, b := t.npieces - 1, t.blocksize;
    TotalPlain(t, s, n);
    LastPiece(n, b, t.tsize);
  }

  /** Every piece lies inside the torrent. */
  lemma PieceFits(t: Torrent, piece: nat)
    requires Consistent(t) && piece < t.npieces
    ensures 0 < PieceLen(t, piece) <= t.blocksize
    ensures piece * t.blocksize + PieceLen(t, piece) <= t.tsize
  {
    var n, b := t.npieces - 1, t.blocksize;
    LastPiece(n, b, t.tsize);
    if piece < n {
      MulUp(piece + 1, n, b);
    }
  }

  lemma MulUp(p: nat, n: nat, b: nat)
    requires p <= n
    ensures p * b <= n * b
  {
  }

  /** Different pieces hold different bytes. */
  lemma PiecesApart(t: Torrent, p: nat, q: nat)
    requires Consistent(t) && p < t.npieces && q < t.npieces && p != q
    ensures p * t.blocksize + PieceLen(t, p) <= q * t.blocksize || q * t.blocksize + PieceLen(t, q) <= p * t.blocksize
  {
    PieceFits(t, p);
    PieceFits(t, q);
    if p < q {
      MulUp(p + 1, q, t.blocksize);
    } else {
      MulUp(q + 1, p, t.blocksize);
    }
  }

  lemma LastPiece(n: nat, b: nat, size: nat)
    requires b > 0 && n * b < size <= (n + 1) * b
    ensures size == n * b + if size % b != 0 then size % b else b
  {
    var r := size - n * b;
    assert 0 < r <= b;
    if r < b {
      Remainder(n, b, r);
    } else {
      assert size == (n + 1) * b;
      Remainder(n + 1, b, 0);
    }
  }

  lemma Remainder(q: nat, b: nat, r: nat)
    requires r < b
    ensures (q * b + r) % b == r
  {
    if q > 0 {
      Remainder(q - 1, b, r);
      assert q * b + r == ((q - 1) * b + r) + b;
      StepMod((q - 1) * b + r, b);
    }
  }

  lemma StepMod(x: nat, b: nat)
    requires b > 0
    ensures (x + b) % b == x % b
  {
    assert x + b == b * (x / b + 1) + x % b;
    Unique(x + b, b, x / b + 1, x % b);
  }

  lemma Unique(x: nat, b: nat, q: nat, r: nat)
    requires b > 0 && r < b && x == b * q + r
    ensures x % b == r
  {
    var d := x / b - q;
    assert b * d == r - x % b;
    MulSign(b, d);
  }

  lemma MulSign(b: int, d: int)
    requires b > 0
    ensures d >= 1 ==> b * d >= b
    ensures d <= -1 ==> b * d <= -b
  {
  }

  lemma {:induction false} TotalMonotone(t: Torrent, s: set<nat>, u: set<nat>, n: nat)
    requires s <= u
    ensures Total(t, s, n) <= Total(t, u, n)
    ensures forall k: nat :: k < n && k in u && k !in s ==> Total(t, s, n) + PieceLen(t, k) <= Total(t, u, n)
  {
    if n > 0 {
      TotalMonotone(t, s, u, n - 1);
    }
  }
}
