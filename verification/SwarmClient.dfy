/** The download as the program runs it: one record updated in place by loops
    over pieces, requests and peers. */
module SwarmClient {
  import opened Pieces
  import opened RequestRing
  import opened BitSets
  import opened Swarm
  import opened Choking

  /** A slot of the favourites array. */
  datatype Slot = Vacant | Taken(peer: nat)

  class Client {
    const torrent: Torrent
    var dl: Download

    constructor (torrent: Torrent, dl: Download)
      ensures this.torrent == torrent && this.dl == dl
    {
      this.torrent := torrent;
      this.dl := dl;
    }

    method SendTo(i: nat, msg: Message, w: World) returns (failed: bool)
      requires i < |dl.peers|
      modifies this
      ensures dl == Send(old(dl), i, msg) && failed == w.fails(|old(dl).wire|)
    {
      failed := w.fails(|dl.wire|);
      dl := dl.(wire := dl.wire + [Sent(i, dl.peers[i].remoteChoked, msg)]);
    }

    method PutPeer(i: nat, p: Peer)
      requires i < |dl.peers|
      modifies this
      ensures dl == SetPeer(old(dl), i, p)
    {
      dl := dl.(peers := dl.peers[i := p]);
    }

    method FindPiece(n: nat) returns (k: nat)
      ensures k == Find(dl.partial, n)
    {
      k := 0;
      while k < |dl.partial| && dl.partial[k].number != n
        invariant k <= |dl.partial|
        invariant forall j :: 0 <= j < k ==> dl.partial[j].number != n
      {
        k := k + 1;
      }
    }

    method ReleasePiece(n: nat)
      modifies this
      ensures dl == Release(torrent, old(dl), n)
    {
      hide Find, FirstClr, PieceLen;
      var k := FindPiece(n);
      dl := dl.(requested := dl.requested - {n});
      if k == |dl.partial| {
        dl := dl.(died := true);
      } else {
        var rst := FirstClr(dl.partial[k].filled, 0, PieceLen(torrent, n));
        dl := dl.(partial := dl.partial[k := dl.partial[k].(nextbyteReq := rst)]);
      }
    }

    method NoteInterest(i: nat, w: World) returns (interest: int)
      requires i < |dl.peers|
      modifies this
      ensures (dl, interest) == UpdateInterested(old(dl), i, w)
    {
      var p := dl.peers[i];
      var wanted := Wanted(dl, p, dl.completed) != {};
      if wanted != p.localInterested {
        PutPeer(i, p.(localInterested := wanted));
        var failed := SendTo(i, InterestedMsg(wanted), w);
        if failed {
          return -1;
        }
      }
      interest := if wanted then 1 else 0;
    }

    method CountWorkers(n: nat) returns (count: nat)
      ensures count == CountPeers(dl.peers, n)
    {
      count := 0;
      for i := 0 to |dl.peers|
        invariant count == CountPeers(dl.peers[..i], n)
      {
        assert dl.peers[..i + 1][..i] == dl.peers[..i];
        if dl.peers[i].current == Piece(n) {
          count := count + 1;
        }
      }
      assert dl.peers[..|dl.peers|] == dl.peers;
    }

    method ScanIdle(i: nat) returns (k: nat)
      requires i < |dl.peers|
      ensures k == IdlePartial(dl, dl.peers[i], 0)
    {
      k := 0;
      while k < |dl.partial| && (dl.partial[k].number in dl.requested || dl.partial[k].number !in dl.peers[i].blocks)
        invariant k <= |dl.partial| && IdlePartial(dl, dl.peers[i], k) == IdlePartial(dl, dl.peers[i], 0)
      {
        k := k + 1;
      }
    }

    method ScanShared(i: nat) returns (k: nat)
      requires i < |dl.peers|
      ensures k == SharedPartial(dl, dl.peers[i], 0)
    {
      k := 0;
      while k < |dl.partial|
        invariant k <= |dl.partial| && SharedPartial(dl, dl.peers[i], k) == SharedPartial(dl, dl.peers[i], 0)
      {
        if dl.partial[k].number in dl.peers[i].blocks {
          return;
        }
        var workers := CountWorkers(dl.partial[k].number);
        if workers >= 4 {
          return;
        }
        k := k + 1;
      }
    }

    method TakePiece(n: nat)
      modifies this
      ensures dl == GetPiece(torrent, old(dl), n)
    {
      hide Find;
      if n >= torrent.npieces {
        dl := dl.(died := true);
        return;
      }
      var k := FindPiece(n);
      if k == |dl.partial| {
        dl := dl.(partial := dl.partial + [NewPartial(torrent, n)]);
      }
    }

    method PeerAssignBlock(i: nat, w: World)
      requires i < |dl.peers|
      modifies this
      ensures dl == AssignBlock(torrent, old(dl), i, w)
    {
      hide IdlePartial, SharedPartial, Find;
      var p := dl.peers[i];
      var k;
      if dl.interestedPeers > 4 || dl.incomplete <= 4 || |dl.peers| - dl.incomplete > 10 {
        k := ScanIdle(i);
      } else {
        k := ScanShared(i);
      }
      var n;
      if k < |dl.partial| {
        n := dl.partial[k].number;
      } else {
        var blocks := Wanted(dl, p, dl.requested);
        if blocks == {} {
          blocks := Wanted(dl, p, dl.completed);
        }
        if blocks == {} {
          return;
        }
        n := w.pick(|dl.wire|, blocks);
        TakePiece(n);
      }
      ClaimPiece(i, n);
    }

    method ClaimPiece(i: nat, n: nat)
      requires i < |dl.peers|
      modifies this
      ensures dl == Claim(old(dl), i, n)
    {
      PutPeer(i, dl.peers[i].(current := Piece(n)));
      dl := dl.(requested := dl.requested + {n});
    }

    /** One turn of the request loop for piece `k`. */
    method RequestNext(i: nat, k: nat, w: World) returns (failed: bool)
      requires i < |dl.peers| && |dl.peers[i].inqueue| < REQMAX
      requires k < |dl.partial| && k == Find(dl.partial, dl.partial[k].number)
      modifies this
      ensures dl == AskOne(torrent, old(dl), i, old(dl).partial[k]) && failed == w.fails(|old(dl).wire|)
    {
      hide Find, NextRequest;
      var piece := dl.partial[k];
      var r := NextRequest(torrent, piece);
      dl := dl.(partial := dl.partial[k := piece.(nextbyteReq := r.offset + r.length)]);
      failed := SendTo(i, RequestMsg(r), w);
      PutPeer(i, dl.peers[i].(inqueue := Queued(dl.peers[i].inqueue, r)));
    }

    /** The loop of `peer_send_request`. */
    method FillWindow(i: nat, w: World, window: nat) returns (res: int)
      requires i < |dl.peers| && window <= REQMAX
      modifies this
      ensures (dl, res) == Ask(torrent, old(dl), i, w, window, 0)
    {
      hide Find, NextRequest, AskOne, PieceLen;
      res := 0;
      while |dl.peers[i].inqueue| < window && dl.peers[i].current != NoPiece
        invariant i < |dl.peers|
        invariant Ask(torrent, dl, i, w, window, res) == Ask(torrent, old(dl), i, w, window, 0)
        decreases window - |dl.peers[i].inqueue|
      {
        var k := FindPiece(dl.peers[i].current.number);
        if k == |dl.partial| {
          dl := dl.(died := true);
          return 0;
        }
        var piece := dl.partial[k];
        if PieceLen(torrent, piece.number) == piece.nextbyteReq && !piece.isdone && dl.peers[i].inqueue != [] {
          return 0;
        }
        var r := NextRequest(torrent, piece);
        if r.length == 0 {
          dl := dl.(partial := dl.partial[k := piece.(nextbyteReq := r.offset)]);
          return 0;
        }
        var failed := RequestNext(i, k, w);
        res := if failed then -1 else 0;
      }
    }

    method PeerSendRequest(i: nat, w: World) returns (res: int)
      requires i < |dl.peers|
      modifies this
      ensures (dl, res) == SendRequest(torrent, old(dl), i, w)
      ensures |dl.peers| == |old(dl).peers|
    {
      hide AssignBlock, Ask, UpdateInterested, Window;
      var rate := w.rate(i, |dl.wire|);
      ghost var r := SendRequest(torrent, dl, i, w);
      if dl.peers[i].current == NoPiece {
        AssignKeepsPeers(torrent, dl, i, w);
        PeerAssignBlock(i, w);
      }
      if dl.peers[i].current == NoPiece {
        var _ := NoteInterest(i, w);
        return 0;
      }
      res := FillWindow(i, w, Window(rate));
    }

    /** The data of a piece message; true when it completes the piece. */
    method SegWritebuf(piece: nat, offset: int, data: seq<bv8>, w: World) returns (done: bool)
      modifies this
      ensures (dl, done) == WriteBuf(torrent, old(dl), piece, offset, data, w)
    {
      hide Find, PieceLen;
      var k := FindPiece(piece);
      if k == |dl.partial| {
        return false;
      }
      var p := dl.partial[k];
      var blocksize := PieceLen(torrent, piece);
      if !(offset >= 0 && offset < blocksize && offset + |data| <= blocksize && |data| > 0 && |p.buffer| == blocksize) {
        dl := dl.(died := true);
        return false;
      }
      p := p.(buffer := Patched(p.buffer, offset, data), filled := p.filled + Range(offset, offset + |data|));
      p := p.(isdone := p.isdone || p.filled == Range(0, blocksize));
      if p.isdone && w.hashed(piece, p.buffer) {
        dl := dl.(partial := dl.partial[..k] + dl.partial[k + 1..],
                  dl := dl.dl + blocksize, left := dl.left - blocksize,
                  disk := dl.disk[piece := p.buffer], completed := dl.completed + {piece});
        return true;
      }
      dl := dl.(partial := dl.partial[k := p]);
      done := false;
    }

    method CancelRequests(i: nat, w: World)
      requires i < |dl.peers|
      modifies this
      ensures dl == CancelAll(old(dl), i, w)
    {
      while dl.peers[i].inqueue != []
        invariant i < |dl.peers| && CancelAll(dl, i, w) == CancelAll(old(dl), i, w)
        decreases |dl.peers[i].inqueue|
      {
        ghost var st := dl;
        CancelOldest(i, w);
      }
    }

    method CancelOldest(i: nat, w: World)
      requires i < |dl.peers| && dl.peers[i].inqueue != []
      modifies this
      ensures dl == CancelOne(old(dl), i, w)
    {
      var p := dl.peers[i];
      var failed := SendTo(i, CancelMsg(p.inqueue[0]), w);
      PutPeer(i, p.(inqueue := p.inqueue[1..], state := if failed then Error else p.state));
    }

    method TellPeer(i: nat, piece: nat, w: World)
      requires i < |dl.peers|
      modifies this
      ensures dl == NotifyOne(torrent, old(dl), i, piece, w) && |dl.peers| == |old(dl).peers|
    {
      hide CancelAll, SendRequest;
      if dl.peers[i].current == Piece(piece) {
        PutPeer(i, dl.peers[i].(current := NoPiece));
        CancelRequests(i, w);
        var _ := PeerSendRequest(i, w);
      }
      if dl.peers[i].state == Good {
        var failed := SendTo(i, HaveMsg(piece), w);
        if failed {
          PutPeer(i, dl.peers[i].(state := Error));
        }
      }
    }

    method OnPiece(i: nat, piece: nat, offset: int, data: seq<bv8>, w: World) returns (res: int)
      requires i < |dl.peers|
      modifies this
      ensures (dl, res) == RecvPiece(torrent, old(dl), i, piece, offset, data, w)
    {
      hide WriteBuf, SendRequest, Matches, Removed, Notify;
      var p := dl.peers[i];
      var r := Request(piece, offset, |data|);
      if p.current == NoPiece || Matches(p.inqueue, r, |p.inqueue|) == 0 {
        return 0;
      }
      PutPeer(i, p.(inqueue := Removed(p.inqueue, r)));
      WriteKeepsPeers(torrent, dl, piece, offset, data, w);
      var done := SegWritebuf(piece, offset, data, w);
      if done {
        dl := dl.(interested := dl.interested - {piece});
        TellPeers(piece, w);
      }
      res := PeerSendRequest(i, w);
    }

    method TellPeers(piece: nat, w: World)
      modifies this
      ensures dl == Notify(torrent, old(dl), 0, piece, w)
    {
      hide NotifyOne;
      var j := 0;
      while j < |dl.peers|
        invariant j <= |dl.peers| && Notify(torrent, dl, j, piece, w) == Notify(torrent, old(dl), 0, piece, w)
        decreases |dl.peers| - j
      {
        TellPeer(j, piece, w);
        j := j + 1;
      }
    }

    method OnChoke(i: nat)
      requires i < |dl.peers|
      modifies this
      ensures dl == RecvChoke(torrent, old(dl), i)
    {
      hide Release;
      var p := dl.peers[i];
      if !p.remoteChoked {
        if p.current != NoPiece {
          ReleaseKeepsPeers(torrent, dl, p.current.number);
          ReleasePiece(p.current.number);
        }
        PutPeer(i, p.(remoteChoked := true, current := NoPiece, inqueue := []));
      }
    }

    method OnUnchoke(i: nat, w: World) returns (res: int)
      requires i < |dl.peers|
      modifies this
      ensures (dl, res) == RecvUnchoke(torrent, old(dl), i, w)
    {
      hide SendRequest, UpdateInterested;
      var p := dl.peers[i];
      if !p.remoteChoked {
        return 0;
      }
      PutPeer(i, p.(remoteChoked := false));
      if !p.localInterested {
        InterestKeepsPeers(dl, i, w);
        var interest := NoteInterest(i, w);
        if interest == 0 {
          return 0;
        }
      }
      res := PeerSendRequest(i, w);
    }

    method OnHave(i: nat, block: int, w: World) returns (res: int)
      requires i < |dl.peers|
      modifies this
      ensures (dl, res) == RecvHave(torrent, old(dl), i, block, w)
    {
      hide SendRequest, UpdateInterested;
      if Outside(torrent, block) {
        dl := dl.(died := true);
        return 0;
      }
      var p := dl.peers[i].(blocks := WithBlock(torrent, dl.peers[i].blocks, block));
      if p.blocks == Range(0, torrent.npieces) && !p.remoteComplete {
        p := p.(remoteComplete := true);
        dl := dl.(incomplete := dl.incomplete - 1);
      }
      PutPeer(i, p);
      InterestKeepsPeers(dl, i, w);
      var interest := NoteInterest(i, w);
      if interest != 0 && !dl.peers[i].remoteSnubbed && !dl.peers[i].remoteChoked {
        res := PeerSendRequest(i, w);
      } else {
        res := 0;
      }
    }

    method PeerShutdown(i: nat)
      requires i < |dl.peers|
      modifies this
      ensures dl == Disconnect(torrent, old(dl), i)
    {
      hide Release;
      var p := dl.peers[i];
      if p.current != NoPiece {
        ReleaseKeepsPeers(torrent, dl, p.current.number);
        ReleasePiece(p.current.number);
      }
      dl := dl.(peers := dl.peers[..i] + dl.peers[i + 1..]);
    }

    // ------------------------------------------------------------------ choking

    /** The favourites array holds `favs` and then nothing. */
    static ghost predicate Holds(p: array<Slot>, favs: seq<nat>)
      reads p
    {
      && p.Length == DOWNLOADS && |favs| <= DOWNLOADS
      && (forall j :: 0 <= j < |favs| ==> p[j] == Taken(favs[j]))
      && (forall j :: |favs| <= j < DOWNLOADS ==> p[j] == Vacant)
    }

    /** Makes room at `i` by shifting the rest up, and takes the place. */
    static method ShiftIn(p: array<Slot>, i: nat, new_: nat, ghost favs: seq<nat>)
      requires Holds(p, favs) && i <= |favs| && i < DOWNLOADS
      modifies p
      ensures Holds(p, InsertAt(favs, i, new_))
    {
      var j := DOWNLOADS - 1;
      while j > i
        invariant i <= j < DOWNLOADS
        invariant forall k :: 0 <= k <= j ==> p[k] == old(p[k])
        invariant forall k :: j < k < DOWNLOADS ==> p[k] == old(p[k - 1])
      {
        p[j] := p[j - 1];
        j := j - 1;
      }
      p[i] := Taken(new_);
      InsertAtIs(favs, i, new_);
    }

    method Prioritize(p: array<Slot>, new_: nat, rank: nat -> int, ghost favs: seq<nat>)
      requires Holds(p, favs) && new_ < |dl.peers| && forall j :: 0 <= j < |favs| ==> favs[j] < |dl.peers|
      modifies p
      ensures Holds(p, Prioritized(dl.peers, favs, new_, rank))
    {
      var peer := dl.peers[new_];
      if !peer.localSnubbed && peer.remoteInterested {
        var i := FirstPlace(p, new_, rank, favs);
        if i < DOWNLOADS {
          ShiftIn(p, i, new_, favs);
          return;
        }
      }
      var i := LastPlace(p, new_, rank, favs);
      if i < DOWNLOADS {
        ShiftIn(p, i, new_, favs);
      }
    }

    method FirstPlace(p: array<Slot>, new_: nat, rank: nat -> int, ghost favs: seq<nat>) returns (i: nat)
      requires Holds(p, favs) && new_ < |dl.peers| && forall j :: 0 <= j < |favs| ==> favs[j] < |dl.peers|
      ensures i == PlaceFirst(dl.peers, favs, new_, rank, 0)
    {
      i := 0;
      while i < DOWNLOADS && p[i] != Vacant
        invariant i <= |favs| && PlaceFirst(dl.peers, favs, new_, rank, i) == PlaceFirst(dl.peers, favs, new_, rank, 0)
      {
        var f := p[i].peer;
        if !dl.peers[f].remoteInterested || rank(new_) > rank(f) {
          return;
        }
        i := i + 1;
      }
    }

    method LastPlace(p: array<Slot>, new_: nat, rank: nat -> int, ghost favs: seq<nat>) returns (i: nat)
      requires Holds(p, favs) && new_ < |dl.peers| && forall j :: 0 <= j < |favs| ==> favs[j] < |dl.peers|
      ensures i == PlaceLast(dl.peers, favs, new_, rank, 0)
    {
      i := 0;
      while i < DOWNLOADS && p[i] != Vacant
        invariant i <= |favs| && PlaceLast(dl.peers, favs, new_, rank, i) == PlaceLast(dl.peers, favs, new_, rank, 0)
      {
        var f := p[i].peer;
        if !dl.peers[f].remoteInterested && rank(new_) > rank(f) {
          return;
        }
        i := i + 1;
      }
    }

    static method IsFavorite(p: array<Slot>, i: nat, ghost favs: seq<nat>) returns (yes: bool)
      requires Holds(p, favs)
      ensures yes <==> i in favs
    {
      for j := 0 to DOWNLOADS
        invariant forall k :: 0 <= k < j ==> p[k] != Taken(i)
      {
        if p[j] == Taken(i) {
          assert j < |favs| && favs[j] == i;
          return true;
        }
      }
      yes := false;
    }

    method PeerFavorites(rank: nat -> int, w: World)
      modifies this
      ensures dl == Favorites(old(dl), rank, w)
    {
      hide Prioritized, NotifyChoke;
      var p := new Slot[DOWNLOADS](_ => Vacant);
      for i := 0 to |dl.peers|
        invariant dl == old(dl) && Holds(p, Selected(dl.peers, i, rank))
      {
        if dl.peers[i].state == Good {
          Prioritize(p, i, rank, Selected(dl.peers, i, rank));
        }
      }
      ghost var favs := Selected(dl.peers, |dl.peers|, rank);
      for i := 0 to |dl.peers|
        invariant |dl.peers| == |old(dl).peers| && Holds(p, favs)
        invariant dl == NotifyChokes(old(dl), i, favs, w)
      {
        var yes := IsFavorite(p, i, favs);
        ChangeChoke(i, !yes, favs, w);
      }
    }

    method ChangeChoke(i: nat, on: bool, ghost favs: seq<nat>, w: World)
      requires i < |dl.peers| && on == (i !in favs)
      modifies this
      ensures dl == NotifyChoke(old(dl), i, favs, w)
    {
      var peer := dl.peers[i];
      if peer.localChoked == on || (on && peer.state != Good) {
        return;
      }
      PutPeer(i, peer.(queue := [], localChoked := on));
      var failed := SendTo(i, ChokeMsg(on), w);
      if failed {
        PutPeer(i, dl.peers[i].(state := Error));
      }
    }
  }

  lemma AssignKeepsPeers(t: Torrent, st: Download, i: nat, w: World)
    requires i < |st.peers|
    ensures |AssignBlock(t, st, i, w).peers| == |st.peers|
  {
  }

  lemma ReleaseKeepsPeers(t: Torrent, st: Download, n: nat)
    ensures Release(t, st, n).peers == st.peers
  {
  }

  lemma InterestKeepsPeers(st: Download, i: nat, w: World)
    requires i < |st.peers|
    ensures |UpdateInterested(st, i, w).0.peers| == |st.peers|
  {
  }

  lemma WriteKeepsPeers(t: Torrent, st: Download, piece: nat, offset: int, data: seq<bv8>, w: World)
    ensures WriteBuf(t, st, piece, offset, data, w).0.peers == st.peers
  {
  }
}
