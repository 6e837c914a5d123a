/** What each message of a peer changes, beside the requests, the bytes and the news
    that Pipeline, BlockBytes and News speak of. */
module Handling {
  import opened Pieces
  import opened RequestRing
  import opened BitSets
  import opened Swarm
  import Choking
  import Pipeline
  import SwarmRuns
  import opened Bits

  /** Only the record of peer `i` changes, and becomes `p`. */
  ghost predicate OnlyPeer(st: Download, i: nat, p: Peer, r: Download)
    requires i < |st.peers|
  {
    r == st.(peers := st.peers[i := p])
  }

  /** The claim on piece `n` is given up: others may have it, and it goes on with its
      first missing byte. */
  ghost predicate Freed(t: Torrent, st: Download, n: nat, r: Download) {
    && |r.partial| == |st.partial|
    && r == st.(requested := st.requested - {n}, partial := r.partial)
    && (forall k :: 0 <= k < |st.partial| ==>
          r.partial[k] == st.partial[k].(nextbyteReq := r.partial[k].nextbyteReq))
    && (exists k :: 0 <= k < |st.partial| && st.partial[k].number == n && (forall j :: 0 <= j < k ==> st.partial[j].number != n)
          && r.partial[k].nextbyteReq >= 0
          && Pipeline.LeastMissing(st.partial[k].filled, PieceLen(t, n), r.partial[k].nextbyteReq)
          && forall j :: 0 <= j < |st.partial| && j != k ==> r.partial[j] == st.partial[j])
  }

  lemma ReleaseDoes(t: Torrent, st: Download, n: nat)
    requires exists k :: 0 <= k < |st.partial| && st.partial[k].number == n
    ensures Freed(t, st, n, Release(t, st, n))
  {
    var k := Find(st.partial, n);
    Pipeline.FirstClrIs(st.partial[k].filled, 0, PieceLen(t, n));
    hide PieceLen, FirstClr, Pipeline.LeastMissing;
    var r := Release(t, st, n);
    assert r.partial == st.partial[k := r.partial[k]];
    hide Find;
  }

  /** A peer without a piece has nothing to give up. */
  ghost predicate FreedFrom(t: Torrent, st: Download, p: Peer, r: Download) {
    if p.current == NoPiece then r == st else Freed(t, st, p.current.number, r)
  }

  ghost function Free(t: Torrent, st: Download, p: Peer): Download {
    if p.current == NoPiece then st else Release(t, st, p.current.number)
  }

  lemma FreeDoes(t: Torrent, st: Download, p: Peer)
    requires p.current != NoPiece ==> exists k :: 0 <= k < |st.partial| && st.partial[k].number == p.current.number
    ensures FreedFrom(t, st, p, Free(t, st, p)) && Free(t, st, p).peers == st.peers
  {
    if p.current != NoPiece {
      ReleaseDoes(t, st, p.current.number);
    }
    hide Freed;
    assert Release(t, st, if p.current == NoPiece then 0 else p.current.number).peers == st.peers;
  }

  /** A choke takes the piece from the peer, frees it for others, and forgets what the
      peer had been asked for; a second one does nothing. */
  lemma ChokeDoes(t: Torrent, st: Download, i: nat) returns (freed: Download)
    requires i < |st.peers|
    requires var c := st.peers[i].current; c != NoPiece ==> exists k :: 0 <= k < |st.partial| && st.partial[k].number == c.number
    ensures var r, p := RecvChoke(t, st, i), st.peers[i];
            if p.remoteChoked then r == st
            else FreedFrom(t, st, p, freed) && freed.peers == st.peers
                 && OnlyPeer(freed, i, p.(remoteChoked := true, current := NoPiece, inqueue := []), r)
  {
    freed := Free(t, st, st.peers[i]);
    FreeDoes(t, st, st.peers[i]);
    hide Release, FreedFrom;
  }

  /** A peer that is lost frees its piece and leaves the list; the others keep their
      order. */
  lemma LossDoes(t: Torrent, st: Download, i: nat) returns (freed: Download)
    requires i < |st.peers|
    requires var c := st.peers[i].current; c != NoPiece ==> exists k :: 0 <= k < |st.partial| && st.partial[k].number == c.number
    ensures var r := Disconnect(t, st, i);
            && FreedFrom(t, st, st.peers[i], freed) && freed.peers == st.peers
            && r == freed.(peers := r.peers) && |r.peers| == |st.peers| - 1
            && (forall j :: 0 <= j < |r.peers| ==> r.peers[j] == st.peers[if j < i then j else j + 1])
  {
    freed := Free(t, st, st.peers[i]);
    FreeDoes(t, st, st.peers[i]);
    hide Release, FreedFrom;
    WithoutOne(st.peers, i);
  }

  lemma WithoutOne(peers: seq<Peer>, i: nat)
    requires i < |peers|
    ensures var r := peers[..i] + peers[i + 1..];
            |r| == |peers| - 1 && forall j :: 0 <= j < |r| ==> r[j] == peers[if j < i then j else j + 1]
  {
  }

  /** Interest is noted, and counted. */
  lemma InterestedDoes(st: Download, i: nat, on: bool)
    requires i < |st.peers|
    ensures var r := RecvInterested(st, i, on);
            OnlyPeer(st.(interestedPeers := r.interestedPeers), i, st.peers[i].(remoteInterested := on), r)
            && r.interestedPeers == (if on then st.interestedPeers + 1 else st.interestedPeers - 1)
  {
  }

  /** A cancel takes requests out of the peer's queue, as the ring does. */
  lemma CancelDoes(st: Download, i: nat, q: Request)
    requires i < |st.peers|
    ensures OnlyPeer(st, i, st.peers[i].(queue := Removed(st.peers[i].queue, q)), RecvCancel(st, i, q))
  {
    hide Removed;
  }

  /** The blocks `b` of a peer are noted; one that has them all is counted off once. */
  ghost predicate Noted(t: Torrent, st: Download, i: nat, b: set<nat>, r: Download)
    requires i < |st.peers|
  {
    var p, all := st.peers[i], forall n: nat :: n in b <==> n < t.npieces;
    && OnlyPeer(st.(incomplete := r.incomplete), i, p.(blocks := b, remoteComplete := p.remoteComplete || all), r)
    && r.incomplete == (if all && !p.remoteComplete then st.incomplete - 1 else st.incomplete)
  }

  lemma NoteDoes(t: Torrent, st: Download, i: nat, b: set<nat>)
    requires i < |st.peers|
    ensures Noted(t, st, i, b, NoteBlocks(t, st, i, b))
  {
    assert b == Range(0, t.npieces) <==> forall n: nat :: n in b <==> n < t.npieces;
  }

  /** A have adds its block, unless its number is that of a pad bit; with our interest
      told anew, an unsnubbed peer that does not choke us is asked for more, if we are
      interested. */
  lemma HaveDoes(t: Torrent, st: Download, i: nat, block: nat, w: World) returns (noted: Download)
    requires i < |st.peers| && !Outside(t, block)
    ensures Noted(t, st, i, st.peers[i].blocks + if block < t.npieces then {block} else {}, noted)
    ensures |noted.peers| == |st.peers|
    ensures var told, res := UpdateInterested(noted, i, w).0, UpdateInterested(noted, i, w).1;
            && |told.peers| == |st.peers|
            && RecvHave(t, st, i, block, w)
               == if res != 0 && !st.peers[i].remoteSnubbed && !st.peers[i].remoteChoked then SendRequest(t, told, i, w)
                  else (told, 0)
  {
    var b := st.peers[i].blocks + if block < t.npieces then {block} else {};
    noted := NoteBlocks(t, st, i, b);
    NoteDoes(t, st, i, b);
    NotedKeeps(t, st, i, b, noted);
    InterestKeeps(noted, i, w);
    assert WithBlock(t, st.peers[i].blocks, block) == b;
    hide SendRequest, UpdateInterested, NoteBlocks, Noted, Outside;
  }

  lemma NotedKeeps(t: Torrent, st: Download, i: nat, b: set<nat>, r: Download)
    requires i < |st.peers| && Noted(t, st, i, b, r)
    ensures |r.peers| == |st.peers|
    ensures r.peers[i].remoteSnubbed == st.peers[i].remoteSnubbed && r.peers[i].remoteChoked == st.peers[i].remoteChoked
  {
  }

  lemma InterestKeeps(st: Download, i: nat, w: World)
    requires i < |st.peers|
    ensures var r := UpdateInterested(st, i, w).0;
            && |r.peers| == |st.peers|
            && r.peers[i].remoteSnubbed == st.peers[i].remoteSnubbed && r.peers[i].remoteChoked == st.peers[i].remoteChoked
  {
    hide Wanted;
  }

  /** A bit field says of each block of its bytes whether the peer has it. */
  lemma BitfieldDoes(t: Torrent, st: Download, i: nat, bits: seq<bv8>, w: World) returns (b: set<nat>, noted: Download)
    requires i < |st.peers| && |bits| <= Bytes(t.npieces)
    ensures forall k: nat :: k in b <==> k < t.npieces && if k < 8 * |bits| then Bit(bits, k) else k in st.peers[i].blocks
    ensures Noted(t, st, i, b, noted) && |noted.peers| == |st.peers|
    ensures RecvBitfield(t, st, i, bits, w) == UpdateInterested(noted, i, w).0
  {
    b := Overlaid(st.peers[i].blocks, bits, t.npieces);
    noted := NoteBlocks(t, st, i, b);
    NoteDoes(t, st, i, b);
    hide UpdateInterested;
  }

  /** An unchoke opens the peer; one that interests us, now that it is looked at anew,
      is asked for a piece. */
  lemma UnchokeDoes(t: Torrent, st: Download, i: nat, w: World) returns (open: Download)
    requires i < |st.peers| && st.peers[i].remoteChoked
    ensures OnlyPeer(st, i, st.peers[i].(remoteChoked := false), open)
    ensures var r, told, res := RecvUnchoke(t, st, i, w), UpdateInterested(open, i, w).0, UpdateInterested(open, i, w).1;
            && |told.peers| == |st.peers|
            && r == if st.peers[i].localInterested then SendRequest(t, open, i, w)
                    else if res == 0 then (told, 0) else SendRequest(t, told, i, w)
  {
    open := SetPeer(st, i, st.peers[i].(remoteChoked := false));
    hide SendRequest, Wanted;
  }

  /** A block that was asked for is crossed off and written; a piece that it finishes is
      no longer wanted, and told to everybody; then the peer is asked for more. */
  lemma PieceDoes(t: Torrent, st: Download, i: nat, piece: nat, offset: int, data: seq<bv8>, w: World)
      returns (taken: Download)
    requires i < |st.peers| && st.peers[i].current != NoPiece
    requires var q := st.peers[i].inqueue; Matches(q, Request(piece, offset, |data|), |q|) > 0
    ensures var p, q := st.peers[i], Request(piece, offset, |data|);
            OnlyPeer(st, i, p.(inqueue := Removed(p.inqueue, q)), taken)
    ensures var written, done := WriteBuf(t, taken, piece, offset, data, w).0, WriteBuf(t, taken, piece, offset, data, w).1;
            && |written.peers| == |st.peers|
            && RecvPiece(t, st, i, piece, offset, data, w)
               == SendRequest(t, if done then Notify(t, written.(interested := written.interested - {piece}), 0, piece, w)
                                 else written, i, w)
  {
    var q := Request(piece, offset, |data|);
    taken := SetPeer(st, i, st.peers[i].(inqueue := Removed(st.peers[i].inqueue, q)));
    hide Matches, Removed, Notify, SendRequest, Patched, PieceLen, Find;
  }

  /** A block that was not asked for changes nothing. */
  lemma UnaskedDoesNothing(t: Torrent, st: Download, i: nat, piece: nat, offset: int, data: seq<bv8>, w: World)
    requires i < |st.peers|
    requires var q := st.peers[i].inqueue;
             st.peers[i].current == NoPiece || Matches(q, Request(piece, offset, |data|), |q|) == 0
    ensures RecvPiece(t, st, i, piece, offset, data, w) == (st, 0)
  {
    hide Matches, WriteBuf, Notify, SendRequest;
  }

  // ------------------------------------------------- connections come and go

  /** A peer that joins has announced nothing and been asked for nothing, and neither
      side lets the other download or is interested. */
  lemma JoiningDoes(t: Torrent, st: Download, incoming: bool, w: World)
    requires !st.died
    ensures var r := SwarmRuns.Step(t, st, SwarmRuns.Joined(incoming), w);
            && |r.peers| == |st.peers| + 1 && r == st.(peers := r.peers) && r.peers[..|st.peers|] == st.peers
            && (var p := r.peers[|st.peers|];
                && p.state == (if incoming then Incoming else Init) && p.blocks == {} && p.current == NoPiece
                && p.inqueue == p.queue == [] && p.remoteChoked && p.localChoked
                && !p.remoteInterested && !p.localInterested && !p.remoteSnubbed && !p.localSnubbed && !p.remoteComplete)
  {
    hide SwarmRuns.Handle;
  }

  /** A connection is made and its handshake completes: each sets the state of the peer,
      and only from the one before it. */
  lemma ConnectionDoes(t: Torrent, st: Download, i: nat, w: World)
    requires !st.died && i < |st.peers|
    ensures var p, r := st.peers[i], SwarmRuns.Step(t, st, SwarmRuns.Connected(i), w);
            if p.state == Init then OnlyPeer(st, i, p.(state := Outgoing), r) else r == st
    ensures var p, r := st.peers[i], SwarmRuns.Step(t, st, SwarmRuns.Shaken(i), w);
            if p.state == Outgoing || p.state == Incoming
            then OnlyPeer(st.(incomplete := st.incomplete + 1), i, p.(state := Good), r) else r == st
  {
    hide SwarmRuns.Handle, Disconnect, Choking.Favorites;
  }

  /** A peer breaks, is snubbed, or goes. */
  lemma EndingDoes(t: Torrent, st: Download, i: nat, w: World)
    requires !st.died && i < |st.peers|
    ensures OnlyPeer(st, i, st.peers[i].(state := Error), SwarmRuns.Step(t, st, SwarmRuns.Broken(i), w))
    ensures OnlyPeer(st, i, st.peers[i].(localSnubbed := true), SwarmRuns.Step(t, st, SwarmRuns.Snubbed(i), w))
    ensures SwarmRuns.Step(t, st, SwarmRuns.Gone(i), w) == Disconnect(t, st, i)
  {
    hide SwarmRuns.Handle, Disconnect, Choking.Favorites;
  }

  /** Messages count only from a GOOD peer, and nothing once the run has ended. */
  lemma OthersUnheard(t: Torrent, st: Download, e: SwarmRuns.Event, w: World)
    requires SwarmRuns.IsMessage(e)
    requires st.died || e.i >= |st.peers| || st.peers[e.i].state != Good
    ensures SwarmRuns.Step(t, st, e, w) == st
  {
    hide SwarmRuns.Handle;
  }
}
