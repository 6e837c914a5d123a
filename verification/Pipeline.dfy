/** The requests of a round: where each begins, how long it is, and that they follow
    each other through the piece. */
module Pipeline {
  import opened Pieces
  import opened RequestRing
  import opened BitSets
  import opened Swarm

  /** The least number below `n` that is missing, or 0 when none is. */
  ghost predicate LeastMissing(filled: set<nat>, n: nat, r: nat) {
    if exists j :: 0 <= j < n && j !in filled then r < n && r !in filled && forall j :: 0 <= j < r ==> j in filled
    else r == 0
  }

  lemma {:induction false} FirstClrIs(filled: set<nat>, k: nat, n: nat)
    requires forall j :: 0 <= j < k ==> j in filled
    ensures LeastMissing(filled, n, FirstClr(filled, k, n))
    decreases n - k
  {
    if k < n && k in filled {
      FirstClrIs(filled, k + 1, n);
    }
  }

  /** The place in the piece where the next request starts. */
  ghost predicate Begins(t: Torrent, piece: Partial, start: int) {
    var len := PieceLen(t, piece.number);
    if piece.nextbyteReq != len then start == piece.nextbyteReq
    else if piece.isdone then start == 0
    else start >= 0 && LeastMissing(piece.filled, len, start)
  }

  /** A request goes on where the last one ended; at the end of the piece it starts
      over, after a bad hash from the front and otherwise with the first byte that is
      missing.  It is for 16384 bytes or what is left. */
  lemma NextRequestIs(t: Torrent, piece: Partial)
    requires 0 <= piece.nextbyteReq <= PieceLen(t, piece.number) && PieceLen(t, piece.number) > 0
    ensures var r, len := NextRequest(t, piece), PieceLen(t, piece.number);
            && r.block == piece.number && Begins(t, piece, r.offset) && 0 <= r.offset < len
            && r.length == (if len - r.offset < 16384 then len - r.offset else 16384) && r.length > 0
  {
    FirstClrIs(piece.filled, 0, PieceLen(t, piece.number));
    hide PieceLen, FirstClr;
  }

  /** The requests `rs` for piece `n` of `len` bytes begin at `first` and follow each
      other; only after a bad hash do they go on at the front behind the end. */
  ghost predicate Follow(rs: seq<Request>, n: nat, len: nat, first: int, again: bool) {
    && (forall m :: 0 <= m < |rs| ==>
          && rs[m].block == n && 0 <= rs[m].offset < len
          && rs[m].length == if len - rs[m].offset < 16384 then len - rs[m].offset else 16384)
    && (rs != [] ==> rs[0].offset == first)
    && (forall m :: 0 < m < |rs| ==>
          var end := rs[m - 1].offset + rs[m - 1].length;
          if end < len then rs[m].offset == end else again && rs[m].offset == 0)
  }

  lemma FollowMore(r: Request, rs: seq<Request>, n: nat, len: nat, again: bool)
    requires Follow([r], n, len, r.offset, again)
    requires var end := r.offset + r.length;
             rs != [] ==> (end < len || again) && Follow(rs, n, len, if end < len then end else 0, again)
    ensures Follow([r] + rs, n, len, r.offset, again)
  {
    var all := [r] + rs;
    assert [r][0] == r;
    assert all[0] == r && forall m :: 0 < m < |all| ==> all[m] == rs[m - 1];
  }

  /** How the requests go out to peer `i`, and into the queue of those expected. */
  ghost function Asking(i: nat, choking: bool, rs: seq<Request>): (sent: seq<Sent>)
    ensures |sent| == |rs|
  {
    seq(|rs|, m requires 0 <= m < |rs| => Sent(i, choking, RequestMsg(rs[m])))
  }

  /** Peer `i` has been sent `rs`; piece `k` goes on at `next`; nothing else changes. */
  ghost predicate SentOut(st: Download, i: nat, k: nat, rs: seq<Request>, next: int, r: Download)
    requires i < |st.peers| && k < |st.partial|
  {
    r == st.(peers := st.peers[i := st.peers[i].(inqueue := st.peers[i].inqueue + rs)],
             wire := st.wire + Asking(i, st.peers[i].remoteChoked, rs),
             partial := st.partial[k := st.partial[k].(nextbyteReq := next)])
  }

  lemma SentNone(st: Download, i: nat, k: nat)
    requires i < |st.peers| && k < |st.partial|
    ensures SentOut(st, i, k, [], st.partial[k].nextbyteReq, st)
  {
    assert st.wire + [] == st.wire && st.peers[i].inqueue + [] == st.peers[i].inqueue;
    assert st.peers[i := st.peers[i]] == st.peers && st.partial[k := st.partial[k]] == st.partial;
  }

  lemma SentMore(st: Download, i: nat, k: nat, q: Request, m: Download, rs: seq<Request>, next: int, r: Download)
    requires i < |st.peers| && k < |st.partial|
    requires SentOut(st, i, k, [q], q.offset + q.length, m) && SentOut(m, i, k, rs, next, r)
    ensures SentOut(st, i, k, [q] + rs, next, r)
  {
    var choking := st.peers[i].remoteChoked;
    AskingMore(i, choking, q, rs);
    hide Asking;
    assert st.wire + Asking(i, choking, [q]) + Asking(i, choking, rs)
        == st.wire + (Asking(i, choking, [q]) + Asking(i, choking, rs));
    assert st.peers[i].inqueue + [q] + rs == st.peers[i].inqueue + ([q] + rs);
  }

  lemma AskingMore(i: nat, choking: bool, q: Request, rs: seq<Request>)
    ensures Asking(i, choking, [q] + rs) == Asking(i, choking, [q]) + Asking(i, choking, rs)
  {
  }

  /** One request goes out, and the piece goes on behind it. */
  lemma AskOneDoes(t: Torrent, st: Download, i: nat, k: nat)
    requires i < |st.peers| && |st.peers[i].inqueue| < REQMAX
    requires k < |st.partial| && Find(st.partial, st.partial[k].number) == k
    ensures var q := NextRequest(t, st.partial[k]);
            SentOut(st, i, k, [q], q.offset + q.length, AskOne(t, st, i, st.partial[k]))
  {
    var q := NextRequest(t, st.partial[k]);
    assert q.block == st.partial[k].number;
    assert Asking(i, st.peers[i].remoteChoked, [q]) == [Sent(i, st.peers[i].remoteChoked, RequestMsg(q))];
    hide NextRequest, Find, Asking;
  }

  /** A round of requests `rs`: they begin where the piece is to go on and follow each
      other; it goes on behind the last; they are sent, and expected, in this order.
      The round ends when enough are in flight, or the piece has been asked for to
      its end and its hash has not failed. */
  ghost predicate Round(t: Torrent, st: Download, i: nat, k: nat, window: nat, rs: seq<Request>, next: int, first: int,
                        r: Download)
    requires i < |st.peers| && k < |st.partial|
  {
    var piece, len := st.partial[k], PieceLen(t, st.partial[k].number);
    && SentOut(st, i, k, rs, next, r)
    && Follow(rs, piece.number, len, first, piece.isdone) && Begins(t, piece, first)
    && next == (if rs == [] then piece.nextbyteReq else rs[|rs| - 1].offset + rs[|rs| - 1].length)
    && (var held := |st.peers[i].inqueue| + |rs|;
        held >= window || (next == len && !piece.isdone && held > 0))
    && (rs == [] <==> |st.peers[i].inqueue| >= window || AtEnd(t, piece, st.peers[i].inqueue))
    && (rs != [] ==> |st.peers[i].inqueue| + |rs| <= window)
  }

  /** All of the piece has been asked for, and some of it is expected. */
  ghost predicate AtEnd(t: Torrent, piece: Partial, inqueue: seq<Request>) {
    piece.nextbyteReq == PieceLen(t, piece.number) && !piece.isdone && inqueue != []
  }

  lemma RoundNone(t: Torrent, st: Download, i: nat, k: nat, window: nat, first: int)
    requires i < |st.peers| && k < |st.partial| && Begins(t, st.partial[k], first)
    requires |st.peers[i].inqueue| >= window || AtEnd(t, st.partial[k], st.peers[i].inqueue)
    ensures Round(t, st, i, k, window, [], st.partial[k].nextbyteReq, first, st)
  {
    SentNone(st, i, k);
    hide SentOut, PieceLen;
  }

  lemma RoundMore(t: Torrent, st: Download, i: nat, k: nat, window: nat, q: Request, m: Download,
                  rs: seq<Request>, next: int, from: int, r: Download)
    requires i < |st.peers| && k < |st.partial| && |st.peers[i].inqueue| < window
    requires !AtEnd(t, st.partial[k], st.peers[i].inqueue)
    requires var len := PieceLen(t, st.partial[k].number);
             && Begins(t, st.partial[k], q.offset) && 0 <= q.offset < len && q.block == st.partial[k].number
             && q.length == if len - q.offset < 16384 then len - q.offset else 16384
    requires SentOut(st, i, k, [q], q.offset + q.length, m) && Round(t, m, i, k, window, rs, next, from, r)
    ensures Round(t, st, i, k, window, [q] + rs, next, q.offset, r)
  {
    var piece, len := st.partial[k], PieceLen(t, st.partial[k].number);
    assert m.partial[k] == piece.(nextbyteReq := q.offset + q.length);
    assert m.peers[i].inqueue == st.peers[i].inqueue + [q];
    SentMore(st, i, k, q, m, rs, next, r);
    assert rs != [] ==> !AtEnd(t, m.partial[k], m.peers[i].inqueue);
    hide PieceLen, SentOut, LeastMissing;
    assert [q][0] == q;
    FollowMore(q, rs, piece.number, len, piece.isdone);
    hide Follow;
    assert rs != [] ==> ([q] + rs)[|rs|] == rs[|rs| - 1];
  }

  lemma {:induction false} FindStays(partial: seq<Partial>, k: nat, next: int)
    requires k < |partial| && Find(partial, partial[k].number) == k
    ensures var r := partial[k := partial[k].(nextbyteReq := next)]; Find(r, r[k].number) == k
  {
  }

  lemma {:induction false} AskDoes(t: Torrent, st: Download, i: nat, w: World, window: nat, res: int, k: nat)
      returns (rs: seq<Request>, next: int, first: int)
    requires i < |st.peers| && window <= REQMAX && k < |st.partial|
    requires st.peers[i].current == Piece(st.partial[k].number) && Find(st.partial, st.partial[k].number) == k
    requires 0 <= st.partial[k].nextbyteReq <= PieceLen(t, st.partial[k].number)
    requires PieceLen(t, st.partial[k].number) > 0
    ensures Round(t, st, i, k, window, rs, next, first, Ask(t, st, i, w, window, res).0)
    decreases window - |st.peers[i].inqueue|
  {
    hide *;
    var piece := st.partial[k];
    var q := NextRequest(t, piece);
    NextRequestIs(t, piece);
    first := q.offset;
    AskOnce(t, st, i, w, window, res, k);
    if |st.peers[i].inqueue| >= window || AtEnd(t, piece, st.peers[i].inqueue) {
      RoundNone(t, st, i, k, window, first);
      rs, next := [], piece.nextbyteReq;
    } else {
      AskOneDoes(t, st, i, k);
      var m := AskOne(t, st, i, piece);
      FindStays(st.partial, k, q.offset + q.length);
      SentKeeps(st, i, k, q, q.offset + q.length, m);
      var from;
      rs, next, from := AskDoes(t, m, i, w, window, if w.fails(|st.wire|) then -1 else 0, k);
      RoundMore(t, st, i, k, window, q, m, rs, next, from, Ask(t, st, i, w, window, res).0);
      rs := [q] + rs;
    }
  }

  lemma SentKeeps(st: Download, i: nat, k: nat, q: Request, next: int, m: Download)
    requires i < |st.peers| && k < |st.partial| && SentOut(st, i, k, [q], next, m)
    ensures |m.peers| == |st.peers| && m.partial == st.partial[k := st.partial[k].(nextbyteReq := next)]
    ensures m.peers[i] == st.peers[i].(inqueue := st.peers[i].inqueue + [q])
  {
    hide Asking;
  }

  lemma AskOnce(t: Torrent, st: Download, i: nat, w: World, window: nat, res: int, k: nat)
    requires i < |st.peers| && window <= REQMAX && k < |st.partial|
    requires st.peers[i].current == Piece(st.partial[k].number) && Find(st.partial, st.partial[k].number) == k
    requires 0 <= st.partial[k].nextbyteReq <= PieceLen(t, st.partial[k].number)
    requires PieceLen(t, st.partial[k].number) > 0
    ensures Ask(t, st, i, w, window, res).0
         == if |st.peers[i].inqueue| >= window || AtEnd(t, st.partial[k], st.peers[i].inqueue) then st
            else Ask(t, AskOne(t, st, i, st.partial[k]), i, w, window, if w.fails(|st.wire|) then -1 else 0).0
  {
    NextRequestIs(t, st.partial[k]);
    hide NextRequest, PieceLen, Find, AskOne;
  }

  // ------------------------------------------------------------ the piece to work on

  ghost function Workers(peers: seq<Peer>, n: nat): set<nat> {
    set i: nat | i < |peers| && peers[i].current == Piece(n)
  }

  /** How many peers work on a piece. */
  lemma {:induction false} CountIs(peers: seq<Peer>, n: nat)
    ensures CountPeers(peers, n) == |Workers(peers, n)|
  {
    if peers == [] {
      assert Workers(peers, n) == {};
    } else {
      var k, front := |peers| - 1, peers[..|peers| - 1];
      CountIs(front, n);
      assert Workers(peers, n) == Workers(front, n) + if peers[k].current == Piece(n) then {k} else {};
    }
  }

  /** The partial piece that suits a peer: while pieces go to one peer at a time, one
      it has and nobody has claimed; otherwise one it has or that four work on. */
  ghost predicate Suits(st: Download, p: Peer, n: nat) {
    if OneAtATime(st) then n !in st.requested && n in p.blocks
    else n in p.blocks || CountPeers(st.peers, n) >= 4
  }

  ghost predicate FirstSuited(st: Download, p: Peer, k: nat) {
    && k <= |st.partial|
    && (forall j :: 0 <= j < k ==> !Suits(st, p, st.partial[j].number))
    && (k < |st.partial| ==> Suits(st, p, st.partial[k].number))
  }

  lemma {:induction false} IdleSuits(st: Download, p: Peer, k: nat)
    requires k <= |st.partial| && OneAtATime(st) && forall j :: 0 <= j < k ==> !Suits(st, p, st.partial[j].number)
    ensures FirstSuited(st, p, IdlePartial(st, p, k))
    decreases |st.partial| - k
  {
    hide OneAtATime, CountPeers;
    if k < |st.partial| && !Suits(st, p, st.partial[k].number) {
      IdleSuits(st, p, k + 1);
    }
  }

  lemma {:induction false} SharedSuits(st: Download, p: Peer, k: nat)
    requires k <= |st.partial| && !OneAtATime(st) && forall j :: 0 <= j < k ==> !Suits(st, p, st.partial[j].number)
    ensures FirstSuited(st, p, SharedPartial(st, p, k))
    decreases |st.partial| - k
  {
    hide OneAtATime, CountPeers;
    if k < |st.partial| && !Suits(st, p, st.partial[k].number) {
      SharedSuits(st, p, k + 1);
    }
  }

  /** Peer `i` works on piece `n`, which nobody else may claim, and which is started
      afresh unless it is partial. */
  ghost predicate Claimed(t: Torrent, st: Download, i: nat, n: nat, r: Download)
    requires i < |st.peers|
  {
    && r == st.(peers := st.peers[i := st.peers[i].(current := Piece(n))], requested := st.requested + {n},
                partial := r.partial)
    && (if exists k :: 0 <= k < |st.partial| && st.partial[k].number == n then r.partial == st.partial
        else r.partial == st.partial + [Partial(n, {}, seq(PieceLen(t, n), _ => 0), 0, false)])
  }

  /** A peer without a piece is given the first partial one that suits it; if there is
      none, one it offers that we want and nobody has claimed, and if there is none
      either, one that is not complete. Otherwise nothing changes. */
  lemma AssignDoes(t: Torrent, st: Download, i: nat, w: World, k: nat)
    requires i < |st.peers| && st.peers[i].current == NoPiece && Fair(w) && FirstSuited(st, st.peers[i], k)
    requires forall n :: n in st.interested ==> n < t.npieces
    ensures var r, wanted := AssignBlock(t, st, i, w), st.peers[i].blocks * st.interested;
            if k < |st.partial| then Claimed(t, st, i, st.partial[k].number, r)
            else if wanted <= st.completed && wanted <= st.requested then r == st
            else exists n :: Claimed(t, st, i, n, r)
                   && n in wanted && if wanted <= st.requested then n !in st.completed else n !in st.requested
  {
    var p, wanted := st.peers[i], st.peers[i].blocks * st.interested;
    OneFirst(st, p, k);
    if k < |st.partial| {
      ClaimPartial(t, st, i, st.partial[k].number);
    } else {
      var unclaimed, missing := Wanted(st, p, st.requested), Wanted(st, p, st.completed);
      NothingOutside(wanted, st.requested);
      NothingOutside(wanted, st.completed);
      hide Suits, FirstSuited, IdlePartial, SharedPartial, OneAtATime;
      if unclaimed != {} || missing != {} {
        var n := w.pick(|st.wire|, if unclaimed != {} then unclaimed else missing);
        ClaimDoes(t, st, i, n);
        hide Claimed, GetPiece, Claim;
      }
    }
  }

  lemma OneFirst(st: Download, p: Peer, k: nat)
    requires FirstSuited(st, p, k)
    ensures k == if OneAtATime(st) then IdlePartial(st, p, 0) else SharedPartial(st, p, 0)
  {
    if OneAtATime(st) {
      IdleSuits(st, p, 0);
      SameFirst(st, p, k, IdlePartial(st, p, 0));
    } else {
      SharedSuits(st, p, 0);
      SameFirst(st, p, k, SharedPartial(st, p, 0));
    }
  }

  lemma SameFirst(st: Download, p: Peer, j: nat, k: nat)
    requires FirstSuited(st, p, j) && FirstSuited(st, p, k)
    ensures j == k
  {
    hide Suits;
  }

  lemma ClaimDoes(t: Torrent, st: Download, i: nat, n: nat)
    requires i < |st.peers| && n < t.npieces
    ensures Claimed(t, st, i, n, Claim(GetPiece(t, st, n), i, n))
  {
    hide PieceLen;
  }

  lemma ClaimPartial(t: Torrent, st: Download, i: nat, n: nat)
    requires i < |st.peers| && exists k :: 0 <= k < |st.partial| && st.partial[k].number == n
    ensures Claimed(t, st, i, n, Claim(st, i, n))
  {
    hide PieceLen;
  }

  lemma NothingOutside(a: set<nat>, b: set<nat>)
    ensures a - b == {} <==> a <= b
  {
    if a - b == {} {
      forall x | x in a ensures x in b { assert x !in a - b; }
    }
  }

  // -------------------------------------------------------------- the whole of it

  /** What fifteen seconds take in blocks of 16 KiB at the rate in KiB, but at least two
      requests and at most ten. */
  lemma WindowIs(rate: int)
    ensures var n, kib := Window(rate), rate / 1024;
            if rate < 0 || 15 * kib < 48 then n == 2
            else if 15 * kib >= 160 then n == 10
            else 16 * n <= 15 * kib < 16 * (n + 1)
  {
  }

  /** A peer without a piece is given one; then a round of requests for its piece
      follows, as many as the rate allows.  With no piece to be had our interest is
      told anew, and nothing is asked for. */
  lemma SendRequestDoes(t: Torrent, st: Download, i: nat, w: World) returns (k: nat, rs: seq<Request>, next: int, first: int)
    requires i < |st.peers|
    requires var ready := if st.peers[i].current == NoPiece then AssignBlock(t, st, i, w) else st;
             var c := ready.peers[i].current;
             c != NoPiece ==> exists k :: 0 <= k < |ready.partial| && Ready(t, ready.partial, c.number, k)
    ensures var ready := if st.peers[i].current == NoPiece then AssignBlock(t, st, i, w) else st;
            var r := SendRequest(t, st, i, w).0;
            if ready.peers[i].current == NoPiece then r == UpdateInterested(ready, i, w).0
            else && k < |ready.partial| && ready.partial[k].number == ready.peers[i].current.number
                 && Round(t, ready, i, k, Window(w.rate(i, |st.wire|)), rs, next, first, r)
  {
    var ready := if st.peers[i].current == NoPiece then AssignBlock(t, st, i, w) else st;
    hide AssignBlock, Round, UpdateInterested, Ask, Window, PieceLen;
    k, rs, next, first := 0, [], 0, 0;
    if ready.peers[i].current != NoPiece {
      k :| 0 <= k < |ready.partial| && Ready(t, ready.partial, ready.peers[i].current.number, k);
      rs, next, first := AskDoes(t, ready, i, w, Window(w.rate(i, |st.wire|)), 0, k);
    }
  }

  /** Piece `n` is the `k`-th partial one, and the first with its number. */
  ghost predicate Ready(t: Torrent, partial: seq<Partial>, n: nat, k: nat)
    requires k < |partial|
  {
    && partial[k].number == n && Find(partial, n) == k
    && 0 <= partial[k].nextbyteReq <= PieceLen(t, n) && PieceLen(t, n) > 0
  }
}
