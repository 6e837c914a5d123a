/** Whether a peer is asked for a piece it has announced. */
module Assignment {
  import opened Pieces
  import opened RequestRing
  import opened BitSets
  import opened Swarm

  /** The first partial piece that the peer has or that four peers work on is one
      that it does not have. */
  ghost predicate Crowded(st: Download, p: Peer) {
    exists k :: 0 <= k < |st.partial| && CrowdedAt(st, p, k)
  }

  ghost predicate CrowdedAt(st: Download, p: Peer, k: nat)
    requires k < |st.partial|
  {
    && st.partial[k].number !in p.blocks && CountPeers(st.peers, st.partial[k].number) >= 4
    && forall j :: 0 <= j < k ==> PassedBy(st, p, st.partial[j].number)
  }

  ghost predicate PassedBy(st: Download, p: Peer, n: nat) {
    n !in p.blocks && CountPeers(st.peers, n) < 4
  }

  lemma {:induction false} SharedIs(st: Download, p: Peer, k: nat)
    requires k <= |st.partial|
    ensures var r := SharedPartial(st, p, k);
            && (forall j :: k <= j < r ==> PassedBy(st, p, st.partial[j].number))
            && (r < |st.partial| ==> !PassedBy(st, p, st.partial[r].number))
    decreases |st.partial| - k
  {
    hide CountPeers;
    if k < |st.partial| && PassedBy(st, p, st.partial[k].number) {
      SharedIs(st, p, k + 1);
    }
  }

  lemma {:induction false} IdleIs(st: Download, p: Peer, k: nat)
    requires k <= |st.partial|
    ensures var r := IdlePartial(st, p, k); r < |st.partial| ==> st.partial[r].number in p.blocks
    decreases |st.partial| - k
  {
    if k < |st.partial| && (st.partial[k].number in st.requested || st.partial[k].number !in p.blocks) {
      IdleIs(st, p, k + 1);
    }
  }

  /** A partial piece is assigned as it is found, a new one only if announced. */
  lemma AssignedIs(t: Torrent, st: Download, i: nat, w: World)
    requires i < |st.peers| && st.peers[i].current == NoPiece && Fair(w)
    ensures var p, c := st.peers[i], AssignBlock(t, st, i, w).peers[i].current;
            var k := if OneAtATime(st) then IdlePartial(st, p, 0) else SharedPartial(st, p, 0);
            if k < |st.partial| then c == Piece(st.partial[k].number) else c == NoPiece || c.number in p.blocks
  {
    hide IdlePartial, SharedPartial, OneAtATime;
  }

  lemma CrowdedIff(st: Download, p: Peer)
    ensures var k := SharedPartial(st, p, 0); k < |st.partial| && st.partial[k].number !in p.blocks <==> Crowded(st, p)
  {
    SharedIs(st, p, 0);
    var k := SharedPartial(st, p, 0);
    if k < |st.partial| && st.partial[k].number !in p.blocks {
      assert CrowdedAt(st, p, k);
    }
    hide CountPeers, SharedPartial;
    if Crowded(st, p) {
      var j :| 0 <= j < |st.partial| && CrowdedAt(st, p, j);
      assert k == j;
    }
  }

  /** A peer without a piece is given one it has not announced just when pieces are
      shared and the first to share is full of other peers. */
  lemma AssignedUnannouncedIff(t: Torrent, st: Download, i: nat, w: World)
    requires i < |st.peers| && st.peers[i].current == NoPiece && Fair(w)
    ensures var p, c := st.peers[i], AssignBlock(t, st, i, w).peers[i].current;
            c != NoPiece && c.number !in p.blocks <==> !OneAtATime(st) && Crowded(st, p)
  {
    hide *;
    AssignedIs(t, st, i, w);
    IdleIs(st, st.peers[i], 0);
    CrowdedIff(st, st.peers[i]);
  }

  /** The requests from message `from` on all name one piece. */
  ghost predicate AskedFrom(wire: seq<Sent>, from: nat, n: nat) {
    forall k :: from <= k < |wire| && wire[k].msg.RequestMsg? ==> wire[k].msg.req.block == n
  }

  /** The loop asks for the piece the peer works on, and for no other. */
  lemma {:induction false} AskNames(t: Torrent, st: Download, i: nat, w: World, window: nat, res: int, from: nat, n: nat)
    requires i < |st.peers| && window <= REQMAX && st.peers[i].current == Piece(n) && AskedFrom(st.wire, from, n)
    ensures AskedFrom(Ask(t, st, i, w, window, res).0.wire, from, n)
    decreases window - |st.peers[i].inqueue|
  {
    var p := st.peers[i];
    var k := Find(st.partial, n);
    if |p.inqueue| < window && k < |st.partial| {
      var piece := st.partial[k];
      hide PieceLen, Find, NextRequest, WithNext;
      var r := NextRequest(t, piece);
      if !(PieceLen(t, piece.number) == piece.nextbyteReq && !piece.isdone && p.inqueue != []) && r.length != 0 {
        AskOneNames(t, st, i, piece, from);
        AskNames(t, AskOne(t, st, i, piece), i, w, window, if w.fails(|st.wire|) then -1 else 0, from, n);
      }
      hide AskOne;
    }
  }

  lemma AskOneNames(t: Torrent, st: Download, i: nat, piece: Partial, from: nat)
    requires i < |st.peers| && |st.peers[i].inqueue| < REQMAX && AskedFrom(st.wire, from, piece.number)
    ensures var r := AskOne(t, st, i, piece);
            r.peers[i].current == st.peers[i].current && AskedFrom(r.wire, from, piece.number)
  {
    assert NextRequest(t, piece).block == piece.number;
    hide NextRequest, WithNext;
  }

  /** The requests of a round name a piece the receiver has not announced just when
      it worked on such a piece before, or is given one because the first piece to
      share is full of other peers. */
  lemma RequestsUnannouncedIff(t: Torrent, st: Download, i: nat, w: World, k: nat)
    requires i < |st.peers| && Fair(w)
    requires var wire := SendRequest(t, st, i, w).0.wire; |st.wire| <= k < |wire| && wire[k].msg.RequestMsg?
    ensures var p, req := st.peers[i], SendRequest(t, st, i, w).0.wire[k].msg.req;
            req.block !in p.blocks <==> if p.current == NoPiece then !OneAtATime(st) && Crowded(st, p)
                                        else p.current.number !in p.blocks
  {
    var p := st.peers[i];
    var ready := if p.current == NoPiece then AssignBlock(t, st, i, w) else st;
    assert ready.wire == st.wire;
    if p.current == NoPiece {
      AssignedUnannouncedIff(t, st, i, w);
    }
    hide AssignBlock, Ask, Window, OneAtATime, Crowded;
    var c := ready.peers[i].current;
    if c != NoPiece {
      AskNames(t, ready, i, w, Window(w.rate(i, |st.wire|)), 0, |st.wire|, c.number);
    }
  }

  /** For one: four of five peers work on the only partial piece, which the fifth
      does not have. */
  lemma CrowdedPieceIsShared(t: Torrent, p: Peer, q: Peer, w: World)
    requires p.current == NoPiece && p.blocks == {} && q.current == Piece(0) && Fair(w)
    ensures var st := Download([q, q, q, q, p], [NewPartial(t, 0)], {0}, {0}, {}, 0, 0, 0, 5, [], map[], false);
            AssignBlock(t, st, 4, w).peers[4].current == Piece(0)
  {
    var st := Download([q, q, q, q, p], [NewPartial(t, 0)], {0}, {0}, {}, 0, 0, 0, 5, [], map[], false);
    FourCount(p, q);
    assert !PassedBy(st, p, 0);
    hide CountPeers;
    assert SharedPartial(st, p, 0) == 0;
  }

  lemma FourCount(p: Peer, q: Peer)
    requires p.current == NoPiece && q.current == Piece(0)
    ensures CountPeers([q, q, q, q, p], 0) == 4
  {
    hide CountPeers;
    SlicesOfFive(q, p);
    CountOnce([q], 0);
    CountOnce([q, q], 0);
    CountOnce([q, q, q], 0);
    CountOnce([q, q, q, q], 0);
    CountOnce([q, q, q, q, p], 0);
    CountNone(0);
  }

  lemma SlicesOfFive(q: Peer, p: Peer)
    ensures [q][..0] == [] && [q, q][..1] == [q] && [q, q, q][..2] == [q, q] && [q, q, q, q][..3] == [q, q, q]
    ensures [q, q, q, q, p][..4] == [q, q, q, q]
  {
  }

  lemma CountNone(n: nat)
    ensures CountPeers([], n) == 0
  {
  }

  lemma CountOnce(peers: seq<Peer>, n: nat)
    requires peers != []
    ensures var k := |peers| - 1;
            CountPeers(peers, n) == CountPeers(peers[..k], n) + if peers[k].current == Piece(n) then 1 else 0
  {
  }
}
