/** What every message, timer and disconnection keeps. */
module SwarmSafety {
  import opened Pieces
  import opened RequestRing
  import opened BitSets
  import opened Swarm

  // ------------------------------------------------------------- the invariant

  ghost function Numbers(partial: seq<Partial>): set<nat> {
    set k | 0 <= k < |partial| :: partial[k].number
  }

  ghost predicate PartialOk(t: Torrent, completed: set<nat>, p: Partial) {
    && p.number < t.npieces && p.number !in completed
    && |p.buffer| == PieceLen(t, p.number)
    && p.filled <= Range(0, PieceLen(t, p.number))
    && 0 <= p.nextbyteReq <= PieceLen(t, p.number)
  }

  /** Partial pieces have different numbers and none of them is completed. */
  ghost predicate PartialInv(t: Torrent, partial: seq<Partial>, completed: set<nat>) {
    && (forall k :: 0 <= k < |partial| ==> PartialOk(t, completed, partial[k]))
    && (forall j, k :: 0 <= j < k < |partial| ==> partial[j].number != partial[k].number)
  }

  /** A request for bytes that piece `n` has. */
  ghost predicate InPiece(t: Torrent, n: int, r: Request) {
    && r.block == n && 0 <= n < t.npieces
    && 0 <= r.offset && 0 < r.length && r.offset + r.length <= PieceLen(t, n)
  }

  /** What a peer has been asked for is part of the piece it works on, which is
      one of `live`; a peer that chokes us works on nothing. */
  ghost predicate PeerOk(t: Torrent, p: Peer, live: set<nat>) {
    && p.blocks <= Range(0, t.npieces)
    && (p.remoteChoked ==> p.current == NoPiece)
    && |p.inqueue| <= REQMAX
    && (p.current == NoPiece ==> p.inqueue == [])
    && (p.current != NoPiece ==> p.current.number in live)
    && (forall k :: 0 <= k < |p.inqueue| ==> p.current != NoPiece && InPiece(t, p.current.number, p.inqueue[k]))
  }

  /** Peers from `i` on may still work on a piece of `dead`. */
  ghost predicate PeersOk(t: Torrent, st: Download, i: nat, dead: set<nat>) {
    forall j :: 0 <= j < |st.peers| ==>
      PeerOk(t, st.peers[j], Numbers(st.partial) + if j < i then {} else dead)
  }

  /** The bytes to come and the completed pieces add up; what is complete is
      not asked for again. */
  ghost predicate SetsOk(t: Torrent, st: Download) {
    && st.completed <= Range(0, t.npieces)
    && st.completed * st.interested <= st.requested
    && st.left + Total(t, st.completed, t.npieces) == t.tsize
  }

  /** Every request ever sent went to a peer that was not choking us and asked
      for bytes of a piece. */
  ghost predicate WireOk(t: Torrent, wire: seq<Sent>) {
    forall k :: 0 <= k < |wire| && wire[k].msg.RequestMsg? ==>
      !wire[k].choking && InPiece(t, wire[k].msg.req.block, wire[k].msg.req)
  }

  ghost predicate DiskOk(t: Torrent, st: Download, w: World) {
    forall n :: n in st.disk ==> n in st.completed && |st.disk[n]| == PieceLen(t, n) && w.hashed(n, st.disk[n])
  }

  ghost predicate Core(t: Torrent, w: World, st: Download) {
    && PartialInv(t, st.partial, st.completed) && SetsOk(t, st)
    && WireOk(t, st.wire) && DiskOk(t, st, w) && !st.died
  }

  /** The sides of a peer that decide about uploads. */
  ghost predicate SameSide(a: Peer, b: Peer) {
    && b.localChoked == a.localChoked && b.remoteChoked == a.remoteChoked
    && (b.state == a.state || b.state == Error)
  }

  ghost predicate Same(a: Download, b: Download) {
    && b.completed == a.completed && b.interested == a.interested
    && Numbers(a.partial) <= Numbers(b.partial)
    && |b.peers| == |a.peers|
    && forall j :: 0 <= j < |a.peers| ==> SameSide(a.peers[j], b.peers[j])
  }

  ghost predicate Positive(t: Torrent, w: World) {
    t.blocksize > 0 && Fair(w)
  }

  // ---------------------------------------------------------- pieces and requests

  lemma WithNextKeeps(t: Torrent, partial: seq<Partial>, completed: set<nat>, n: nat, next: int)
    requires PartialInv(t, partial, completed) && 0 <= next <= PieceLen(t, n)
    ensures PartialInv(t, WithNext(partial, n, next), completed)
    ensures Numbers(WithNext(partial, n, next)) == Numbers(partial)
  {
    hide Find, PieceLen;
    var r := WithNext(partial, n, next);
    assert |r| == |partial| && forall k :: 0 <= k < |r| ==> r[k].number == partial[k].number;
    var k := Find(partial, n);
    if k < |partial| {
      assert PartialOk(t, completed, partial[k]);
    }
  }

  lemma FindsNumber(partial: seq<Partial>, n: nat)
    ensures n in Numbers(partial) <==> Find(partial, n) < |partial|
  {
    hide Find;
    if n in Numbers(partial) {
      var k :| 0 <= k < |partial| && partial[k].number == n;
    }
  }

  lemma NextIsInPiece(t: Torrent, piece: Partial, completed: set<nat>)
    requires t.blocksize > 0 && PartialOk(t, completed, piece)
    ensures var r := NextRequest(t, piece);
            InPiece(t, piece.number, r) && r.length > 0
  {
  }

  lemma MorePieces(t: Torrent, p: Peer, live: set<nat>, more: set<nat>)
    requires PeerOk(t, p, live) && live <= more
    ensures PeerOk(t, p, more)
  {
    hide InPiece;
  }

  lemma WireGrows(t: Torrent, wire: seq<Sent>, e: Sent)
    requires WireOk(t, wire)
    requires e.msg.RequestMsg? ==> !e.choking && InPiece(t, e.msg.req.block, e.msg.req)
    ensures WireOk(t, wire + [e])
  {
    hide InPiece;
  }

  /** A change of one peer and of the pieces, seen by all peers. */
  lemma PeersStay(t: Torrent, a: Download, b: Download, i: nat, from: nat, dead: set<nat>)
    requires PeersOk(t, a, from, dead) && i < |a.peers|
    requires |b.peers| == |a.peers| && Numbers(a.partial) <= Numbers(b.partial)
    requires forall j :: 0 <= j < |a.peers| && j != i ==> b.peers[j] == a.peers[j]
    requires PeerOk(t, b.peers[i], Numbers(b.partial))
    ensures PeersOk(t, b, from, dead)
  {
    hide PeerOk, Numbers;
    forall j | 0 <= j < |b.peers|
      ensures PeerOk(t, b.peers[j], Numbers(b.partial) + if j < from then {} else dead)
    {
      var more := if j < from then {} else dead;
      if j == i {
        MorePieces(t, b.peers[i], Numbers(b.partial), Numbers(b.partial) + more);
      } else {
        MorePieces(t, a.peers[j], Numbers(a.partial) + more, Numbers(b.partial) + more);
      }
    }
  }

  lemma AskOneKeeps(t: Torrent, w: World, st: Download, i: nat, k: nat, from: nat, dead: set<nat>)
    requires Positive(t, w) && Core(t, w, st) && PeersOk(t, st, from, dead)
    requires i < |st.peers| && PeerOk(t, st.peers[i], Numbers(st.partial)) && !st.peers[i].remoteChoked
    requires |st.peers[i].inqueue| < REQMAX
    requires k < |st.partial| && st.peers[i].current == Piece(st.partial[k].number)
    ensures var r := AskOne(t, st, i, st.partial[k]);
            && Core(t, w, r) && PeersOk(t, r, from, dead) && Same(st, r)
            && PeerOk(t, r.peers[i], Numbers(r.partial)) && r.peers[i].current == st.peers[i].current
            && !r.peers[i].remoteChoked
  {
    hide InPiece, NextRequest, Numbers, PieceLen;
    var piece := st.partial[k];
    var p := st.peers[i];
    var q := NextRequest(t, piece);
    var r := AskOne(t, st, i, piece);
    NextIsInPiece(t, piece, st.completed);
    WithNextKeeps(t, st.partial, st.completed, piece.number, q.offset + q.length) by {
      NextEnds(t, piece, st.completed);
    }
    WireGrows(t, st.wire, Sent(i, false, RequestMsg(q))) by {
      NextEnds(t, piece, st.completed);
    }
    assert r.peers[i] == p.(inqueue := p.inqueue + [q]);
    PeersStay(t, st, r, i, from, dead);
  }

  lemma NextEnds(t: Torrent, piece: Partial, completed: set<nat>)
    requires t.blocksize > 0 && PartialOk(t, completed, piece)
    ensures var r := NextRequest(t, piece);
            0 <= r.offset + r.length <= PieceLen(t, piece.number) && r.block == piece.number
  {
  }

  lemma {:induction false} AskKeeps(t: Torrent, w: World, st: Download, i: nat, window: nat, res: int,
        from: nat, dead: set<nat>)
    requires Positive(t, w) && Core(t, w, st) && PeersOk(t, st, from, dead)
    requires i < |st.peers| && PeerOk(t, st.peers[i], Numbers(st.partial)) && !st.peers[i].remoteChoked
    requires window <= REQMAX
    ensures var r := Ask(t, st, i, w, window, res).0;
            && Core(t, w, r) && PeersOk(t, r, from, dead) && Same(st, r)
            && PeerOk(t, r.peers[i], Numbers(r.partial))
    decreases window - |st.peers[i].inqueue|
  {
    var p := st.peers[i];
    if |p.inqueue| < window && p.current != NoPiece {
      FindsNumber(st.partial, p.current.number);
      var k := Find(st.partial, p.current.number);
      var piece := st.partial[k];
      NextIsInPiece(t, piece, st.completed);
      hide Core, PeerOk, PeersOk, NextRequest, Numbers, PieceLen, Find, AskOne;
      if !(PieceLen(t, piece.number) == piece.nextbyteReq && !piece.isdone && p.inqueue != []) {
        AskOneKeeps(t, w, st, i, k, from, dead);
        AskStep(t, st, i, w, window, res);
        hide Ask;
        var next := AskOne(t, st, i, piece);
        var sent := if w.fails(|st.wire|) then -1 else 0;
        AskKeeps(t, w, next, i, window, sent, from, dead);
        SameTrans(st, next, Ask(t, next, i, w, window, sent).0);
        hide Same;
      }
    }
  }

  lemma AskStep(t: Torrent, st: Download, i: nat, w: World, window: nat, res: int)
    requires i < |st.peers| && |st.peers[i].inqueue| < window <= REQMAX && st.peers[i].current != NoPiece
    requires var k := Find(st.partial, st.peers[i].current.number);
             && k < |st.partial| && NextRequest(t, st.partial[k]).length > 0
             && !(PieceLen(t, st.partial[k].number) == st.partial[k].nextbyteReq && !st.partial[k].isdone && st.peers[i].inqueue != [])
    ensures var piece := st.partial[Find(st.partial, st.peers[i].current.number)];
            Ask(t, st, i, w, window, res) == Ask(t, AskOne(t, st, i, piece), i, w, window, if w.fails(|st.wire|) then -1 else 0)
  {
    hide NextRequest, PieceLen, Find, AskOne;
  }

  // ----------------------------------------------------------------- assignment

  lemma UpdateInterestedKeeps(t: Torrent, w: World, st: Download, i: nat, from: nat, dead: set<nat>)
    requires Core(t, w, st) && PeersOk(t, st, from, dead) && i < |st.peers|
    ensures var r := UpdateInterested(st, i, w).0;
            && Core(t, w, r) && PeersOk(t, r, from, dead) && Same(st, r)
            && r.partial == st.partial
            && r.peers[i] == st.peers[i].(localInterested := r.peers[i].localInterested)
  {
    hide InPiece, Numbers, Wanted;
    var r := UpdateInterested(st, i, w).0;
    if r.wire != st.wire {
      WireGrows(t, st.wire, r.wire[|st.wire|]);
    }
    forall j | 0 <= j < |r.peers|
      ensures PeerOk(t, r.peers[j], Numbers(r.partial) + if j < from then {} else dead)
    {
      assert PeerOk(t, st.peers[j], Numbers(st.partial) + if j < from then {} else dead);
    }
  }

  lemma ClaimKeeps(t: Torrent, w: World, st: Download, i: nat, n: nat, from: nat, dead: set<nat>)
    requires Core(t, w, st) && PeersOk(t, st, from, dead)
    requires i < |st.peers| && st.peers[i].current == NoPiece && !st.peers[i].remoteChoked
    requires n in Numbers(st.partial)
    ensures var r := Claim(st, i, n);
            && Core(t, w, r) && PeersOk(t, r, from, dead) && Same(st, r)
            && PeerOk(t, r.peers[i], Numbers(r.partial)) && r.peers[i].current == Piece(n)
  {
    hide InPiece, Numbers;
    var r := Claim(st, i, n);
    assert PeerOk(t, st.peers[i], Numbers(st.partial) + if i < from then {} else dead);
    PeersStay(t, st, r, i, from, dead);
  }

  lemma GetPieceKeeps(t: Torrent, w: World, st: Download, n: nat, from: nat, dead: set<nat>)
    requires Core(t, w, st) && PeersOk(t, st, from, dead)
    requires n < t.npieces && n !in st.completed
    ensures var r := GetPiece(t, st, n);
            && Core(t, w, r) && PeersOk(t, r, from, dead) && Same(st, r)
            && n in Numbers(r.partial) && r.peers == st.peers
  {
    FindsNumber(st.partial, n);
    var r := GetPiece(t, st, n);
    if n !in Numbers(st.partial) {
      assert r.partial[|st.partial|].number == n;
      assert forall k :: 0 <= k < |st.partial| ==> r.partial[k] == st.partial[k];
      NumbersGrow(st.partial, r.partial);
      hide Numbers, InPiece, PieceLen;
      forall j | 0 <= j < |r.peers|
        ensures PeerOk(t, r.peers[j], Numbers(r.partial) + if j < from then {} else dead)
      {
        var more := if j < from then {} else dead;
        MorePieces(t, st.peers[j], Numbers(st.partial) + more, Numbers(r.partial) + more);
      }
    }
  }

  lemma NumbersGrow(a: seq<Partial>, b: seq<Partial>)
    requires |b| == |a| + 1 && forall k :: 0 <= k < |a| ==> b[k] == a[k]
    ensures Numbers(b) == Numbers(a) + {b[|a|].number}
  {
  }

  /** A piece that is wanted and not requested is not completed either. */
  lemma AssignBlockKeeps(t: Torrent, w: World, st: Download, i: nat, from: nat, dead: set<nat>)
    requires Positive(t, w) && Core(t, w, st) && PeersOk(t, st, from, dead)
    requires i < |st.peers| && st.peers[i].current == NoPiece && !st.peers[i].remoteChoked
    ensures var r := AssignBlock(t, st, i, w);
            && Core(t, w, r) && PeersOk(t, r, from, dead) && Same(st, r)
            && (r.peers[i].current != NoPiece ==> PeerOk(t, r.peers[i], Numbers(r.partial)))
            && (r.peers[i].current == NoPiece ==> r == st)
  {
    var p := st.peers[i];
    var k := if OneAtATime(st) then IdlePartial(st, p, 0) else SharedPartial(st, p, 0);
    assert PeerOk(t, p, Numbers(st.partial) + if i < from then {} else dead);
    hide IdlePartial, SharedPartial, PieceLen, InPiece, GetPiece;
    if k < |st.partial| {
      assert st.partial[k].number in Numbers(st.partial);
      ClaimKeeps(t, w, st, i, st.partial[k].number, from, dead);
    } else {
      var unclaimed := Wanted(st, p, st.requested);
      var missing := Wanted(st, p, st.completed);
      if unclaimed != {} || missing != {} {
        var n := if unclaimed != {} then w.pick(|st.wire|, unclaimed) else w.pick(|st.wire|, missing);
        assert n in p.blocks && n in st.interested && n !in st.completed;
        hide Core, PeersOk, PeerOk;
        GetPieceKeeps(t, w, st, n, from, dead);
        ClaimKeeps(t, w, GetPiece(t, st, n), i, n, from, dead);
      }
    }
  }

  lemma SendRequestKeeps(t: Torrent, w: World, st: Download, i: nat, from: nat, dead: set<nat>)
    requires Positive(t, w) && Core(t, w, st) && PeersOk(t, st, from, dead)
    requires i < |st.peers| && PeerOk(t, st.peers[i], Numbers(st.partial)) && !st.peers[i].remoteChoked
    ensures var r := SendRequest(t, st, i, w).0;
            && Core(t, w, r) && PeersOk(t, r, from, dead) && Same(st, r)
            && PeerOk(t, r.peers[i], Numbers(r.partial))
  {
    var none := st.peers[i].current == NoPiece;
    var ready := if none then AssignBlock(t, st, i, w) else st;
    if none {
      AssignBlockKeeps(t, w, st, i, from, dead);
    }
    hide Core, PeersOk, Numbers, AssignBlock, Ask, UpdateInterested, Window;
    if ready.peers[i].current == NoPiece {
      UpdateInterestedKeeps(t, w, ready, i, from, dead);
    } else {
      AskKeeps(t, w, ready, i, Window(w.rate(i, |st.wire|)), 0, from, dead);
    }
  }

  // ------------------------------------------------------------------ completion

  lemma ReleaseKeeps(t: Torrent, w: World, st: Download, n: nat, from: nat, dead: set<nat>)
    requires Positive(t, w) && Core(t, w, st) && PeersOk(t, st, from, dead) && n in Numbers(st.partial)
    ensures var r := Release(t, st, n);
            && Core(t, w, r) && PeersOk(t, r, from, dead) && Same(st, r)
            && r.peers == st.peers && Numbers(r.partial) == Numbers(st.partial)
  {
    FindsNumber(st.partial, n);
    var k := Find(st.partial, n);
    assert PartialOk(t, st.completed, st.partial[k]);
    WithNextKeeps(t, st.partial, st.completed, n, FirstClr(st.partial[k].filled, 0, PieceLen(t, n)));
    hide Numbers, PeerOk, InPiece, FirstClr, Find, PieceLen, WithNext;
  }

  /** Only the queue and the state of one peer differ, and what was sent. */
  ghost predicate OnlyQueue(a: Download, b: Download, i: nat) {
    && i < |a.peers| == |b.peers|
    && b == a.(peers := b.peers, wire := b.wire)
    && (forall j :: 0 <= j < |a.peers| && j != i ==> b.peers[j] == a.peers[j])
    && b.peers[i] == a.peers[i].(inqueue := b.peers[i].inqueue, state := b.peers[i].state)
    && (b.peers[i].state == a.peers[i].state || b.peers[i].state == Error)
  }

  lemma OnlyQueueTrans(a: Download, b: Download, c: Download, i: nat)
    requires OnlyQueue(a, b, i) && OnlyQueue(b, c, i)
    ensures OnlyQueue(a, c, i)
  {
  }

  lemma CancelOneKeeps(t: Torrent, st: Download, i: nat, w: World)
    requires WireOk(t, st.wire) && i < |st.peers| && st.peers[i].inqueue != []
    ensures WireOk(t, CancelOne(st, i, w).wire) && OnlyQueue(st, CancelOne(st, i, w), i)
  {
    WireGrows(t, st.wire, Sent(i, st.peers[i].remoteChoked, CancelMsg(st.peers[i].inqueue[0])));
    CancelOneOnly(st, i, w);
    hide InPiece, OnlyQueue, WireOk;
  }

  lemma CancelOneOnly(st: Download, i: nat, w: World)
    requires i < |st.peers| && st.peers[i].inqueue != []
    ensures OnlyQueue(st, CancelOne(st, i, w), i)
  {
    var p, r := st.peers[i], CancelOne(st, i, w);
    var q := r.peers[i];
    assert q == if w.fails(|st.wire|) then p.(inqueue := p.inqueue[1..], state := Error) else p.(inqueue := p.inqueue[1..]);
    assert r == Send(st, i, CancelMsg(p.inqueue[0])).(peers := st.peers[i := q]);
    hide CancelOne;
  }

  /** Cancelling empties a peer's queue and asks for nothing. */
  lemma {:induction false} CancelAllKeeps(t: Torrent, st: Download, i: nat, w: World)
    requires WireOk(t, st.wire) && i < |st.peers|
    ensures var r := CancelAll(st, i, w);
            WireOk(t, r.wire) && OnlyQueue(st, r, i) && r.peers[i].inqueue == []
    decreases |st.peers[i].inqueue|
  {
    if st.peers[i].inqueue != [] {
      var next := CancelOne(st, i, w);
      CancelOneKeeps(t, st, i, w);
      hide WireOk, OnlyQueue, CancelOne;
      CancelAllKeeps(t, next, i, w);
      OnlyQueueTrans(st, next, CancelAll(next, i, w), i);
    }
  }

  /** A peer that worked on a completed piece is set free, and may be given
      another one. */
  lemma FreeKeeps(t: Torrent, w: World, st: Download, i: nat, piece: nat)
    requires Positive(t, w) && Core(t, w, st) && PeersOk(t, st, i, {piece})
    requires i < |st.peers| && st.peers[i].current == Piece(piece)
    ensures var r := CancelAll(SetPeer(st, i, st.peers[i].(current := NoPiece)), i, w);
            && Core(t, w, r) && PeersOk(t, r, i, {piece}) && Same(st, r)
            && PeerOk(t, r.peers[i], Numbers(r.partial)) && !r.peers[i].remoteChoked
  {
    var p := st.peers[i];
    assert PeerOk(t, p, Numbers(st.partial) + {piece});
    var freed := SetPeer(st, i, p.(current := NoPiece));
    CancelAllKeeps(t, freed, i, w);
    var r := CancelAll(freed, i, w);
    hide CancelAll, Numbers, InPiece;
    assert PeerOk(t, r.peers[i], Numbers(r.partial));
    PeersStay(t, st, r, i, i, {piece});
  }

  lemma NotifyOneKeeps(t: Torrent, w: World, st: Download, i: nat, piece: nat)
    requires Positive(t, w) && Core(t, w, st) && PeersOk(t, st, i, {piece}) && i < |st.peers|
    ensures var r := NotifyOne(t, st, i, piece, w);
            Core(t, w, r) && PeersOk(t, r, i + 1, {piece}) && Same(st, r)
  {
    var moved := Moved(t, st, i, piece, w);
    var told := Send(moved, i, HaveMsg(piece));
    assert NotifyOne(t, st, i, piece, w)
        == if moved.peers[i].state != Good then moved
           else if w.fails(|moved.wire|) then SetPeer(told, i, told.peers[i].(state := Error)) else told;
    MovedKeeps(t, w, st, i, piece);
    hide *;
    NextPeers(t, moved, i, piece);
    HaveKeeps(t, w, moved, i, i + 1, {piece}, piece);
  }

  /** The state once peer `i` is off the piece and has another. */
  ghost function Moved(t: Torrent, st: Download, i: nat, piece: nat, w: World): (r: Download)
    requires i < |st.peers|
    ensures |r.peers| == |st.peers|
  {
    if st.peers[i].current == Piece(piece) then
      SendRequest(t, CancelAll(SetPeer(st, i, st.peers[i].(current := NoPiece)), i, w), i, w).0
    else st
  }

  lemma MovedKeeps(t: Torrent, w: World, st: Download, i: nat, piece: nat)
    requires Positive(t, w) && Core(t, w, st) && PeersOk(t, st, i, {piece}) && i < |st.peers|
    ensures var r := Moved(t, st, i, piece, w);
            && Core(t, w, r) && PeersOk(t, r, i, {piece}) && Same(st, r)
            && PeerOk(t, r.peers[i], Numbers(r.partial))
  {
    assert PeerOk(t, st.peers[i], Numbers(st.partial) + {piece});
    if st.peers[i].current == Piece(piece) {
      var freed := CancelAll(SetPeer(st, i, st.peers[i].(current := NoPiece)), i, w);
      FreeKeeps(t, w, st, i, piece);
      hide CancelAll;
      SendRequestKeeps(t, w, freed, i, i, {piece});
    }
    hide SendRequest;
  }

  lemma NextPeers(t: Torrent, st: Download, i: nat, piece: nat)
    requires PeersOk(t, st, i, {piece}) && i < |st.peers| && PeerOk(t, st.peers[i], Numbers(st.partial))
    ensures PeersOk(t, st, i + 1, {piece})
  {
    hide PeerOk;
    assert Numbers(st.partial) + {} == Numbers(st.partial);
  }

  /** A `have` message asks for nothing and may only cost a peer its connection. */
  lemma HaveKeeps(t: Torrent, w: World, st: Download, i: nat, from: nat, dead: set<nat>, piece: nat)
    requires Core(t, w, st) && PeersOk(t, st, from, dead) && i < |st.peers|
    ensures var told := Send(st, i, HaveMsg(piece));
            var r := if w.fails(|st.wire|) then SetPeer(told, i, told.peers[i].(state := Error)) else told;
            Core(t, w, told) && PeersOk(t, told, from, dead) && Core(t, w, r) && PeersOk(t, r, from, dead) && Same(st, r)
  {
    hide InPiece, Numbers;
    var told := Send(st, i, HaveMsg(piece));
    WireGrows(t, st.wire, told.wire[|st.wire|]);
    forall j | 0 <= j < |st.peers|
      ensures PeerOk(t, st.peers[j].(state := Error), Numbers(st.partial) + if j < from then {} else dead)
    {
      assert PeerOk(t, st.peers[j], Numbers(st.partial) + if j < from then {} else dead);
    }
  }

  lemma SameTrans(a: Download, b: Download, c: Download)
    requires Same(a, b) && Same(b, c)
    ensures Same(a, c)
  {
    hide Numbers;
    forall j | 0 <= j < |a.peers|
      ensures SameSide(a.peers[j], c.peers[j])
    {
      assert SameSide(a.peers[j], b.peers[j]) && SameSide(b.peers[j], c.peers[j]);
    }
  }

  lemma {:induction false} NotifyKeeps(t: Torrent, w: World, st: Download, i: nat, piece: nat)
    requires Positive(t, w) && Core(t, w, st) && i <= |st.peers| && PeersOk(t, st, i, {piece})
    ensures var r := Notify(t, st, i, piece, w);
            Core(t, w, r) && PeersOk(t, r, |r.peers|, {piece}) && Same(st, r)
    decreases |st.peers| - i
  {
    hide Core, PeersOk, NotifyOne;
    if i < |st.peers| {
      NotifyOneKeeps(t, w, st, i, piece);
      var next := NotifyOne(t, st, i, piece, w);
      NotifyKeeps(t, w, next, i + 1, piece);
      hide Same;
      SameTrans(st, next, Notify(t, next, i + 1, piece, w));
    }
  }

  // ---------------------------------------------------------------- a block arrives

  lemma PatchedFilled(n: nat, filled: set<nat>, offset: nat, len: nat)
    requires filled <= Range(0, n) && offset + len <= n
    ensures filled + Range(offset, offset + len) <= Range(0, n)
  {
  }

  lemma NumbersShrink(t: Torrent, partial: seq<Partial>, completed: set<nat>, k: nat)
    requires PartialInv(t, partial, completed) && k < |partial|
    ensures var r := partial[..k] + partial[k + 1..];
            && PartialInv(t, r, completed + {partial[k].number})
            && Numbers(r) == Numbers(partial) - {partial[k].number}
  {
    hide PieceLen;
    var r := partial[..k] + partial[k + 1..];
    assert forall j :: 0 <= j < |r| ==> r[j] == partial[if j < k then j else j + 1];
    forall n | n in Numbers(partial) && n != partial[k].number
      ensures n in Numbers(r)
    {
      var j :| 0 <= j < |partial| && partial[j].number == n;
      assert r[if j < k then j else j - 1].number == n;
    }
  }

  lemma SlotKeeps(t: Torrent, partial: seq<Partial>, completed: set<nat>, k: nat, p: Partial)
    requires PartialInv(t, partial, completed) && k < |partial|
    requires PartialOk(t, completed, p) && p.number == partial[k].number
    ensures PartialInv(t, partial[k := p], completed) && Numbers(partial[k := p]) == Numbers(partial)
  {
    hide PartialOk;
    var r := partial[k := p];
    assert forall j :: 0 <= j < |r| ==> r[j].number == partial[j].number;
  }

  /** The bounds check of `seg_writebuf` holds, and a finished piece moves from
      the partial list to the completed set with its bytes accounted for. */
  lemma WriteBufKeeps(t: Torrent, w: World, st: Download, piece: nat, offset: int, data: seq<bv8>)
    requires Core(t, w, st) && piece in Numbers(st.partial)
    requires InPiece(t, piece, Request(piece, offset, |data|))
    ensures var (r, done) := WriteBuf(t, st, piece, offset, data, w);
            var s := r.(interested := r.interested - {piece});
            && r.peers == st.peers && !r.died && r.wire == st.wire
            && (done ==> Core(t, w, s) && Numbers(r.partial) == Numbers(st.partial) - {piece} && piece in r.completed)
            && (!done ==> Core(t, w, r) && Numbers(r.partial) == Numbers(st.partial) && r.completed == st.completed
                          && r.interested == st.interested)
  {
    FindsNumber(st.partial, piece);
    var k := Find(st.partial, piece);
    var p := st.partial[k];
    assert PartialOk(t, st.completed, p);
    PatchedFilled(PieceLen(t, piece), p.filled, offset, |data|);
    var (r, done) := WriteBuf(t, st, piece, offset, data, w);
    if done {
      NumbersShrink(t, st.partial, st.completed, k);
      TotalAdd(t, st.completed, piece, t.npieces);
      hide PartialInv, WireOk, Numbers, Find, Patched, PieceLen;
    } else {
      SlotKeeps(t, st.partial, st.completed, k, r.partial[k]);
      hide PartialInv, WireOk, Numbers, Find, Patched, PieceLen;
    }
  }

  lemma MatchesFound(q: seq<Request>, r: Request, n: nat) returns (k: nat)
    requires n <= |q| && Matches(q, r, n) > 0
    ensures k < n && q[k] == r
  {
    k := FirstMatch(q, r, n);
  }

  lemma RemovedPeerOk(t: Torrent, p: Peer, r: Request, live: set<nat>)
    requires PeerOk(t, p, live) && p.current != NoPiece
    ensures PeerOk(t, p.(inqueue := Removed(p.inqueue, r)), live)
  {
    hide InPiece, Matches;
    var left := Removed(p.inqueue, r);
    forall k | 0 <= k < |left|
      ensures InPiece(t, p.current.number, left[k])
    {
      RemovedAt(p.inqueue, r, k);
    }
  }

  lemma TakeKeeps(t: Torrent, w: World, st: Download, i: nat, r: Request)
    requires Core(t, w, st) && PeersOk(t, st, 0, {}) && i < |st.peers| && st.peers[i].current != NoPiece
    ensures var taken := SetPeer(st, i, st.peers[i].(inqueue := Removed(st.peers[i].inqueue, r)));
            Core(t, w, taken) && PeersOk(t, taken, 0, {}) && Same(st, taken)
  {
    hide InPiece, Numbers, Removed;
    var taken := SetPeer(st, i, st.peers[i].(inqueue := Removed(st.peers[i].inqueue, r)));
    assert PeerOk(t, st.peers[i], Numbers(st.partial) + {});
    assert Numbers(st.partial) + {} == Numbers(st.partial);
    RemovedPeerOk(t, st.peers[i], r, Numbers(st.partial));
    PeersStay(t, st, taken, i, 0, {});
  }

  /** When a piece goes away its workers are the ones to be told. */
  lemma PieceGone(t: Torrent, a: Download, b: Download, piece: nat)
    requires PeersOk(t, a, 0, {}) && b.peers == a.peers && Numbers(b.partial) == Numbers(a.partial) - {piece}
    ensures PeersOk(t, b, 0, {piece})
  {
    hide Numbers, PeerOk;
    forall j | 0 <= j < |b.peers|
      ensures PeerOk(t, b.peers[j], Numbers(b.partial) + {piece})
    {
      MorePieces(t, a.peers[j], Numbers(a.partial) + {}, Numbers(b.partial) + {piece});
    }
  }

  lemma PiecesStay(t: Torrent, a: Download, b: Download)
    requires PeersOk(t, a, 0, {}) && b.peers == a.peers && Numbers(b.partial) == Numbers(a.partial)
    ensures PeersOk(t, b, 0, {})
  {
    hide Numbers, PeerOk;
  }

  lemma AllLive(t: Torrent, st: Download, dead: set<nat>)
    requires PeersOk(t, st, |st.peers|, dead)
    ensures PeersOk(t, st, 0, {})
  {
    hide Numbers, PeerOk;
  }

  lemma LivePeer(t: Torrent, st: Download, i: nat)
    requires PeersOk(t, st, 0, {}) && i < |st.peers|
    ensures PeerOk(t, st.peers[i], Numbers(st.partial))
  {
    hide PeerOk;
    assert Numbers(st.partial) + {} == Numbers(st.partial);
  }

  ghost predicate SameSides(a: seq<Peer>, b: seq<Peer>) {
    |a| == |b| && forall j :: 0 <= j < |a| ==> SameSide(a[j], b[j])
  }

  lemma SidesTrans(a: seq<Peer>, b: seq<Peer>, c: seq<Peer>)
    requires SameSides(a, b) && SameSides(b, c)
    ensures SameSides(a, c)
  {
    forall j | 0 <= j < |a|
      ensures SameSide(a[j], c[j])
    {
      assert SameSide(a[j], b[j]) && SameSide(b[j], c[j]);
    }
  }

  lemma RecvPieceKeeps(t: Torrent, w: World, st: Download, i: nat, piece: nat, offset: int, data: seq<bv8>)
    requires Positive(t, w) && Core(t, w, st) && PeersOk(t, st, 0, {}) && i < |st.peers|
    ensures var r := RecvPiece(t, st, i, piece, offset, data, w).0;
            Core(t, w, r) && PeersOk(t, r, 0, {}) && SameSides(st.peers, r.peers)
  {
    var p := st.peers[i];
    var req := Request(piece, offset, |data|);
    if p.current != NoPiece && Matches(p.inqueue, req, |p.inqueue|) > 0 {
      var k := MatchesFound(p.inqueue, req, |p.inqueue|);
      LivePeer(t, st, i);
      var taken := SetPeer(st, i, p.(inqueue := Removed(p.inqueue, req)));
      TakeKeeps(t, w, st, i, req);
      WriteBufKeeps(t, w, taken, piece, offset, data);
      var (written, done) := WriteBuf(t, taken, piece, offset, data, w);
      var told := if done then Notify(t, written.(interested := written.interested - {piece}), 0, piece, w) else written;
      TellAll(t, w, taken, written, done, piece, told);
      assert !p.remoteChoked;
      LivePeer(t, told, i);
      assert SameSide(taken.peers[i], told.peers[i]);
      hide Core, PeersOk, Numbers, SendRequest, WriteBuf, Notify;
      SendRequestKeeps(t, w, told, i, 0, {});
      hide SameSide;
      SidesTrans(st.peers, taken.peers, told.peers);
      SidesTrans(st.peers, told.peers, SendRequest(t, told, i, w).0.peers);
    }
  }

  lemma TellAll(t: Torrent, w: World, taken: Download, written: Download, done: bool, piece: nat, told: Download)
    requires Positive(t, w) && PeersOk(t, taken, 0, {}) && written.peers == taken.peers
    requires var s := written.(interested := written.interested - {piece});
             && (done ==> Core(t, w, s) && Numbers(written.partial) == Numbers(taken.partial) - {piece})
             && (!done ==> Core(t, w, written) && Numbers(written.partial) == Numbers(taken.partial))
             && told == if done then Notify(t, s, 0, piece, w) else written
    ensures Core(t, w, told) && PeersOk(t, told, 0, {}) && SameSides(taken.peers, told.peers)
  {
    hide Core, Numbers, PeersOk, Notify;
    if done {
      var s := written.(interested := written.interested - {piece});
      PieceGone(t, taken, s, piece);
      NotifyKeeps(t, w, s, 0, piece);
      AllLive(t, told, {piece});
    } else {
      PiecesStay(t, taken, written);
    }
  }
}
