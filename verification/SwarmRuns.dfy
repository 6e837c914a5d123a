/** Whole runs of a download: from any set of pieces found on disk, through any
    sequence of messages, joins, losses and choking rounds. */
module SwarmRuns {
  import opened Pieces
  import opened RequestRing
  import opened BitSets
  import opened Swarm
  import opened SwarmSafety
  import opened Choking

  /** What can happen next.  A message is handled when its sender is GOOD; `rank`
      are the rates of a choking round. */
  datatype Event =
    | GotChoke(i: nat)
    | GotUnchoke(i: nat)
    | GotInterested(i: nat, on: bool)
    | GotHave(i: nat, block: int)
    | GotBitfield(i: nat, bits: seq<bv8>)
    | GotRequest(i: nat, req: Request)
    | GotPiece(i: nat, piece: nat, offset: int, data: seq<bv8>)
    | GotCancel(i: nat, req: Request)
    | Joined(incoming: bool)
    | Connected(i: nat)
    | Shaken(i: nat)
    | Broken(i: nat)
    | Gone(i: nat)
    | Snubbed(i: nat)
    | Round(rank: nat -> int)

  const NEW_PEER: Peer :=
    Peer(Outgoing, {}, NoPiece, [], [], true, false, false, false, true, false, false)

  function Handle(t: Torrent, st: Download, e: Event, w: World): Download
    requires e.GotChoke? || e.GotUnchoke? || e.GotInterested? || e.GotHave? || e.GotBitfield? || e.GotRequest?
             || e.GotPiece? || e.GotCancel?
    requires e.i < |st.peers|
  {
    match e
    case GotChoke(i) => RecvChoke(t, st, i)
    case GotUnchoke(i) => RecvUnchoke(t, st, i, w).0
    case GotInterested(i, on) => RecvInterested(st, i, on)
    case GotHave(i, block) => RecvHave(t, st, i, block, w).0
    case GotBitfield(i, bits) => RecvBitfield(t, st, i, bits, w)
    case GotRequest(i, req) => RecvRequest(t, st, i, req).0
    case GotPiece(i, piece, offset, data) => RecvPiece(t, st, i, piece, offset, data, w).0
    case GotCancel(i, req) => RecvCancel(st, i, req)
  }

  /** Nothing happens any more once the program has died. */
  function Step(t: Torrent, st: Download, e: Event, w: World): Download {
    if st.died then st
    else Stepped(t, st, e, w)
  }

  function Stepped(t: Torrent, st: Download, e: Event, w: World): Download {
    match e
    case Joined(incoming) => st.(peers := st.peers + [NEW_PEER.(state := if incoming then Incoming else Init)])
    case Round(rank) => Favorites(st, rank, w)
    case Connected(i) =>
      if i < |st.peers| && st.peers[i].state == Init then SetPeer(st, i, st.peers[i].(state := Outgoing)) else st
    case Shaken(i) =>
      if i < |st.peers| && (st.peers[i].state == Outgoing || st.peers[i].state == Incoming) then
        SetPeer(st, i, st.peers[i].(state := Good)).(incomplete := st.incomplete + 1)
      else st
    case Broken(i) => if i < |st.peers| then SetPeer(st, i, st.peers[i].(state := Error)) else st
    case Gone(i) => if i < |st.peers| then Disconnect(t, st, i) else st
    case Snubbed(i) => if i < |st.peers| then SetPeer(st, i, st.peers[i].(localSnubbed := true)) else st
    case _ => if e.i < |st.peers| && st.peers[e.i].state == Good then Handle(t, st, e, w) else st
  }

  /** The start of a download, given the pieces found on disk. */
  ghost function Loaded(t: Torrent, found: set<nat>, interested: set<nat>): Download {
    Download([], [], found, interested, found, t.tsize - Total(t, found, t.npieces), 0, 0, 0, [], map[], false)
  }

  ghost predicate Inv(t: Torrent, w: World, st: Download) {
    Core(t, w, st) && PeersOk(t, st, 0, {}) && ChokeOk(st.peers)
  }

  // -------------------------------------------------------------- every event

  ghost predicate SameWork(a: Peer, b: Peer) {
    b.current == a.current && b.inqueue == a.inqueue && b.remoteChoked == a.remoteChoked
  }

  ghost predicate UploadSide(a: Peer, b: Peer) {
    (b.state == a.state || b.state == Error) && (b.localChoked == a.localChoked || b.localChoked)
  }

  lemma ChokeStays(a: seq<Peer>, b: seq<Peer>)
    requires ChokeOk(a) && |b| == |a| && forall j :: 0 <= j < |a| ==> UploadSide(a[j], b[j])
    ensures ChokeOk(b)
  {
    FewerUploads(a, b);
  }

  lemma SidesStay(a: seq<Peer>, b: seq<Peer>)
    requires ChokeOk(a) && SameSides(a, b)
    ensures ChokeOk(b)
  {
    forall j | 0 <= j < |a| ensures UploadSide(a[j], b[j]) { assert SameSide(a[j], b[j]); }
    ChokeStays(a, b);
  }

  /** Changes that leave the work of every peer alone. */
  lemma WorkStays(t: Torrent, w: World, a: Download, b: Download)
    requires Core(t, w, a) && PeersOk(t, a, 0, {}) && WireOk(t, b.wire)
    requires b == a.(peers := b.peers, interestedPeers := b.interestedPeers, incomplete := b.incomplete, wire := b.wire)
    requires |b.peers| == |a.peers|
    requires forall j :: 0 <= j < |a.peers| ==> SameWork(a.peers[j], b.peers[j])
    requires forall j :: 0 <= j < |a.peers| ==> b.peers[j].blocks <= Range(0, t.npieces)
    ensures Core(t, w, b) && PeersOk(t, b, 0, {})
  {
    hide InPiece, Numbers, WireOk, PartialInv;
    forall j | 0 <= j < |b.peers|
      ensures PeerOk(t, b.peers[j], Numbers(b.partial) + {})
    {
      assert PeerOk(t, a.peers[j], Numbers(a.partial) + {}) && SameWork(a.peers[j], b.peers[j]);
    }
  }

  lemma BlocksKnown(t: Torrent, st: Download)
    requires PeersOk(t, st, 0, {})
    ensures forall j :: 0 <= j < |st.peers| ==> st.peers[j].blocks <= Range(0, t.npieces)
  {
    forall j | 0 <= j < |st.peers|
      ensures st.peers[j].blocks <= Range(0, t.npieces)
    {
      LivePeer(t, st, j);
    }
  }

  /** A change of one peer that concerns neither its work nor uploads. */
  lemma OnePeerStays(t: Torrent, w: World, st: Download, i: nat, p: Peer, dInterested: int, dIncomplete: int)
    requires Inv(t, w, st) && i < |st.peers|
    requires SameWork(st.peers[i], p) && UploadSide(st.peers[i], p) && p.blocks <= Range(0, t.npieces)
    ensures Inv(t, w, SetPeer(st, i, p).(interestedPeers := dInterested, incomplete := dIncomplete))
  {
    var r := SetPeer(st, i, p).(interestedPeers := dInterested, incomplete := dIncomplete);
    BlocksKnown(t, st);
    hide PeerOk, InPiece, Numbers, PartialInv;
    forall j | 0 <= j < |st.peers| ensures SameWork(st.peers[j], r.peers[j]) && UploadSide(st.peers[j], r.peers[j]) {}
    WorkStays(t, w, st, r);
    ChokeStays(st.peers, r.peers);
  }

  lemma RecvChokeKeeps(t: Torrent, w: World, st: Download, i: nat)
    requires Positive(t, w) && Inv(t, w, st) && i < |st.peers|
    ensures Inv(t, w, RecvChoke(t, st, i))
  {
    var p := st.peers[i];
    LivePeer(t, st, i);
    if !p.remoteChoked {
      var freed := st;
      if p.current != NoPiece {
        ReleaseKeeps(t, w, st, p.current.number, 0, {});
        freed := Release(t, st, p.current.number);
      }
      hide Release;
      ChokedKeeps(t, w, freed, i);
    }
  }

  lemma ChokedKeeps(t: Torrent, w: World, st: Download, i: nat)
    requires Inv(t, w, st) && i < |st.peers|
    ensures Inv(t, w, SetPeer(st, i, st.peers[i].(remoteChoked := true, current := NoPiece, inqueue := [])))
  {
    hide Numbers, PartialInv, InPiece;
    var q := st.peers[i].(remoteChoked := true, current := NoPiece, inqueue := []);
    var r := SetPeer(st, i, q);
    LivePeer(t, st, i);
    assert PeerOk(t, q, Numbers(r.partial));
    PeersStay(t, st, r, i, 0, {});
    ChokeStays(st.peers, r.peers);
  }

  lemma SendRequestInv(t: Torrent, w: World, st: Download, i: nat)
    requires Positive(t, w) && Inv(t, w, st) && i < |st.peers| && !st.peers[i].remoteChoked
    ensures Inv(t, w, SendRequest(t, st, i, w).0)
  {
    LivePeer(t, st, i);
    hide Core, PeersOk, Numbers, SendRequest, ChokeOk, PeerOk;
    SendRequestKeeps(t, w, st, i, 0, {});
    SidesStay(st.peers, SendRequest(t, st, i, w).0.peers);
  }

  lemma UpdateInterestedInv(t: Torrent, w: World, st: Download, i: nat)
    requires Inv(t, w, st) && i < |st.peers|
    ensures var r := UpdateInterested(st, i, w).0;
            Inv(t, w, r) && |r.peers| == |st.peers| && r.peers[i].remoteChoked == st.peers[i].remoteChoked
  {
    hide Core, PeersOk, Numbers, UpdateInterested, ChokeOk;
    UpdateInterestedKeeps(t, w, st, i, 0, {});
    var r := UpdateInterested(st, i, w).0;
    assert SameSide(st.peers[i], r.peers[i]);
    SidesStay(st.peers, r.peers);
  }

  lemma RecvUnchokeKeeps(t: Torrent, w: World, st: Download, i: nat)
    requires Positive(t, w) && Inv(t, w, st) && i < |st.peers|
    ensures Inv(t, w, RecvUnchoke(t, st, i, w).0)
  {
    var p := st.peers[i];
    if p.remoteChoked {
      var open := SetPeer(st, i, p.(remoteChoked := false));
      OpenKeeps(t, w, st, i);
      hide Inv, UpdateInterested, SendRequest;
      if p.localInterested {
        SendRequestInv(t, w, open, i);
      } else {
        UpdateInterestedInv(t, w, open, i);
        var (told, interest) := UpdateInterested(open, i, w);
        if interest != 0 {
          SendRequestInv(t, w, told, i);
        }
      }
    }
  }

  lemma OpenKeeps(t: Torrent, w: World, st: Download, i: nat)
    requires Inv(t, w, st) && i < |st.peers|
    ensures Inv(t, w, SetPeer(st, i, st.peers[i].(remoteChoked := false)))
  {
    hide Numbers, PartialInv, InPiece;
    var q := st.peers[i].(remoteChoked := false);
    var r := SetPeer(st, i, q);
    LivePeer(t, st, i);
    assert PeerOk(t, q, Numbers(r.partial));
    PeersStay(t, st, r, i, 0, {});
    ChokeStays(st.peers, r.peers);
  }

  lemma NoteBlocksKeeps(t: Torrent, w: World, st: Download, i: nat, blocks: set<nat>)
    requires Inv(t, w, st) && i < |st.peers| && blocks <= Range(0, t.npieces)
    ensures var r := NoteBlocks(t, st, i, blocks);
            Inv(t, w, r) && |r.peers| == |st.peers|
  {
    hide Inv;
    var p := st.peers[i].(blocks := blocks);
    OnePeerStays(t, w, st, i, p, st.interestedPeers, st.incomplete);
    OnePeerStays(t, w, st, i, p.(remoteComplete := true), st.interestedPeers, st.incomplete - 1);
  }

  lemma RecvHaveKeeps(t: Torrent, w: World, st: Download, i: nat, block: int)
    requires Positive(t, w) && Inv(t, w, st) && i < |st.peers|
    ensures var r := RecvHave(t, st, i, block, w).0;
            if Outside(t, block) then r == st.(died := true) else Inv(t, w, r)
  {
    BlocksKnown(t, st);
    var blocks := WithBlock(t, st.peers[i].blocks, block);
    hide Inv, UpdateInterested, SendRequest, NoteBlocks;
    NoteBlocksKeeps(t, w, st, i, blocks);
    var noted := NoteBlocks(t, st, i, blocks);
    UpdateInterestedInv(t, w, noted, i);
    var told := UpdateInterested(noted, i, w).0;
    if !told.peers[i].remoteChoked {
      SendRequestInv(t, w, told, i);
    }
  }

  lemma SendChokeKeeps(t: Torrent, w: World, st: Download, i: nat)
    requires Inv(t, w, st) && i < |st.peers|
    ensures Inv(t, w, SendChoke(st, i, true))
  {
    var p := st.peers[i];
    var r := SendChoke(st, i, true);
    WireGrows(t, st.wire, r.wire[|st.wire|]);
    BlocksKnown(t, st);
    hide PeerOk, InPiece, Numbers, PartialInv, WireOk;
    forall j | 0 <= j < |st.peers| ensures SameWork(st.peers[j], r.peers[j]) && UploadSide(st.peers[j], r.peers[j]) {}
    WorkStays(t, w, st, r);
    ChokeStays(st.peers, r.peers);
  }

  lemma RecvRequestKeeps(t: Torrent, w: World, st: Download, i: nat, req: Request)
    requires Inv(t, w, st) && i < |st.peers|
    ensures var r := RecvRequest(t, st, i, req).0;
            if !st.peers[i].localChoked && Outside(t, req.block) then r == st.(died := true) else Inv(t, w, r)
  {
    BlocksKnown(t, st);
    hide Inv, Queued, SendChoke;
    SendChokeKeeps(t, w, st, i);
    var p := st.peers[i];
    OnePeerStays(t, w, st, i, p.(queue := Queued(p.queue, req)), st.interestedPeers, st.incomplete);
  }

  lemma DisconnectKeeps(t: Torrent, w: World, st: Download, i: nat)
    requires Positive(t, w) && Inv(t, w, st) && i < |st.peers|
    ensures Inv(t, w, Disconnect(t, st, i))
  {
    var p := st.peers[i];
    LivePeer(t, st, i);
    var freed := st;
    if p.current != NoPiece {
      ReleaseKeeps(t, w, st, p.current.number, 0, {});
      freed := Release(t, st, p.current.number);
    }
    hide Release;
    PeerDropped(t, w, freed, i);
  }

  lemma PeerDropped(t: Torrent, w: World, st: Download, i: nat)
    requires Inv(t, w, st) && i < |st.peers|
    ensures Inv(t, w, st.(peers := st.peers[..i] + st.peers[i + 1..]))
  {
    hide Numbers, PartialInv, InPiece, PeerOk;
    UploadsRemove(st.peers, i);
    var r := st.(peers := st.peers[..i] + st.peers[i + 1..]);
    assert forall j :: 0 <= j < |r.peers| ==> r.peers[j] == st.peers[if j < i then j else j + 1];
  }

  lemma JoinedKeeps(t: Torrent, w: World, st: Download, incoming: bool)
    requires Inv(t, w, st)
    ensures Inv(t, w, Step(t, st, Joined(incoming), w))
  {
    PeerAdded(t, w, st, NEW_PEER.(state := if incoming then Incoming else Init));
  }

  lemma PeerAdded(t: Torrent, w: World, st: Download, p: Peer)
    requires Inv(t, w, st) && p.current == NoPiece && p.inqueue == [] && p.blocks == {} && p.localChoked
    ensures Inv(t, w, st.(peers := st.peers + [p]))
  {
    var r := st.(peers := st.peers + [p]);
    assert PeerOk(t, p, Numbers(r.partial));
    hide InPiece, Numbers, PartialInv, PeerOk;
    assert r.peers[..|r.peers| - 1] == st.peers && r.peers[|r.peers| - 1] == p;
    assert Core(t, w, r);
    hide Core;
    assert ChokeOk(r.peers) by {
      assert forall j :: 0 <= j < |st.peers| ==> r.peers[j] == st.peers[j];
    }
    hide ChokeOk;
    forall j | 0 <= j < |r.peers| ensures PeerOk(t, r.peers[j], Numbers(r.partial) + {}) {
      assert Numbers(r.partial) + {} == Numbers(r.partial);
      if j < |st.peers| {
        assert PeerOk(t, st.peers[j], Numbers(st.partial) + {});
      }
    }
  }

  /** A peer that completes the handshake is still choked. */
  lemma ShakenKeeps(t: Torrent, w: World, st: Download, i: nat, s: PeerState, n: int)
    requires Inv(t, w, st) && i < |st.peers| && Connecting(st.peers[i]) && (s == Good || s == Outgoing)
    ensures Inv(t, w, SetPeer(st, i, st.peers[i].(state := s)).(incomplete := n))
  {
    var r := SetPeer(st, i, st.peers[i].(state := s)).(incomplete := n);
    BlocksKnown(t, st);
    hide PeerOk, InPiece, Numbers, PartialInv;
    forall j | 0 <= j < |st.peers| ensures SameWork(st.peers[j], r.peers[j]) {}
    WorkStays(t, w, st, r);
    FewerUploads(st.peers, r.peers);
  }

  lemma {:induction false} NotifyChokesWire(t: Torrent, st: Download, n: nat, favs: seq<nat>, w: World)
    requires n <= |st.peers| && WireOk(t, st.wire)
    ensures WireOk(t, NotifyChokes(st, n, favs, w).wire)
  {
    if n > 0 {
      NotifyChokesWire(t, st, n - 1, favs, w);
      var before := NotifyChokes(st, n - 1, favs, w);
      hide WireOk, InPiece;
      WireGrows(t, before.wire, Sent(n - 1, before.peers[n - 1].remoteChoked, ChokeMsg(n - 1 !in favs)));
    }
  }

  lemma RoundKeeps(t: Torrent, w: World, st: Download, rank: nat -> int)
    requires Inv(t, w, st)
    ensures Inv(t, w, Favorites(st, rank, w))
  {
    var favs := Selected(st.peers, |st.peers|, rank);
    var r := Favorites(st, rank, w);
    FavoritesDecide(st, rank, w);
    NotifyChokesDecides(st, |st.peers|, favs, w);
    NotifyChokesWire(t, st, |st.peers|, favs, w);
    BlocksKnown(t, st);
    hide PeerOk, InPiece, Numbers, PartialInv, WireOk, Selected, NotifyChokes, ChokeOk;
    forall j | 0 <= j < |st.peers|
      ensures SameWork(st.peers[j], r.peers[j]) && r.peers[j].blocks <= Range(0, t.npieces)
    {
      assert Decided(st.peers[j], r.peers[j], j in favs);
    }
    WorkStays(t, w, st, r);
  }

  /** A bit field with too many bytes ends the program and changes nothing else. */
  lemma RecvBitfieldKeeps(t: Torrent, w: World, st: Download, i: nat, bits: seq<bv8>)
    requires Positive(t, w) && Inv(t, w, st) && i < |st.peers|
    ensures var r := RecvBitfield(t, st, i, bits, w);
            if |bits| > Bytes(t.npieces) then r == st.(died := true) else Inv(t, w, r)
  {
    BlocksKnown(t, st);
    hide Inv, NoteBlocks, UpdateInterested;
    if |bits| <= Bytes(t.npieces) {
      var blocks := Overlaid(st.peers[i].blocks, bits, t.npieces);
      NoteBlocksKeeps(t, w, st, i, blocks);
      UpdateInterestedInv(t, w, NoteBlocks(t, st, i, blocks), i);
    }
  }

  lemma RecvPieceInv(t: Torrent, w: World, st: Download, i: nat, piece: nat, offset: int, data: seq<bv8>)
    requires Positive(t, w) && Inv(t, w, st) && i < |st.peers|
    ensures Inv(t, w, RecvPiece(t, st, i, piece, offset, data, w).0)
  {
    RecvPieceKeeps(t, w, st, i, piece, offset, data);
    hide RecvPiece, Core, PeersOk, ChokeOk;
    SidesStay(st.peers, RecvPiece(t, st, i, piece, offset, data, w).0.peers);
  }

  lemma RecvInterestedKeeps(t: Torrent, w: World, st: Download, i: nat, on: bool)
    requires Inv(t, w, st) && i < |st.peers|
    ensures Inv(t, w, RecvInterested(st, i, on))
  {
    BlocksKnown(t, st);
    hide Inv;
    var change := if on then 1 else -1;
    OnePeerStays(t, w, st, i, st.peers[i].(remoteInterested := on), st.interestedPeers + change, st.incomplete);
  }

  lemma RecvCancelKeeps(t: Torrent, w: World, st: Download, i: nat, req: Request)
    requires Inv(t, w, st) && i < |st.peers|
    ensures Inv(t, w, RecvCancel(st, i, req))
  {
    BlocksKnown(t, st);
    hide Inv, Removed;
    var p := st.peers[i].(queue := Removed(st.peers[i].queue, req));
    OnePeerStays(t, w, st, i, p, st.interestedPeers, st.incomplete);
  }

  predicate TooLong(t: Torrent, e: Event) {
    e.GotBitfield? && |e.bits| > Bytes(t.npieces)
  }

  predicate Strays(t: Torrent, st: Download, e: Event)
    requires (e.GotHave? || e.GotRequest?) ==> e.i < |st.peers|
  {
    || (e.GotHave? && Outside(t, e.block))
    || (e.GotRequest? && !st.peers[e.i].localChoked && Outside(t, e.req.block))
  }

  lemma HandleKeeps(t: Torrent, w: World, st: Download, e: Event)
    requires e.GotChoke? || e.GotUnchoke? || e.GotInterested? || e.GotHave? || e.GotBitfield? || e.GotRequest?
             || e.GotPiece? || e.GotCancel?
    requires Positive(t, w) && Inv(t, w, st) && e.i < |st.peers|
    ensures var r := Handle(t, st, e, w);
            if TooLong(t, e) || Strays(t, st, e) then r == st.(died := true) else Inv(t, w, r)
  {
    hide Inv, RecvChoke, RecvUnchoke, RecvInterested, RecvHave, RecvBitfield, RecvRequest, RecvPiece, RecvCancel;
    match e
    case GotChoke(i) => RecvChokeKeeps(t, w, st, i);
    case GotUnchoke(i) => RecvUnchokeKeeps(t, w, st, i);
    case GotInterested(i, on) => RecvInterestedKeeps(t, w, st, i, on);
    case GotHave(i, block) => RecvHaveKeeps(t, w, st, i, block);
    case GotBitfield(i, bits) => RecvBitfieldKeeps(t, w, st, i, bits);
    case GotRequest(i, req) => RecvRequestKeeps(t, w, st, i, req);
    case GotPiece(i, piece, offset, data) => RecvPieceInv(t, w, st, i, piece, offset, data);
    case GotCancel(i, req) => RecvCancelKeeps(t, w, st, i, req);
  }

  /** A GOOD peer sends a bit field with more bytes than there is room for. */
  predicate Oversize(t: Torrent, st: Download, e: Event) {
    TooLong(t, e) && e.i < |st.peers| && st.peers[e.i].state == Good
  }

  /** A GOOD peer tells us of, or is let ask for, a block outside the bit sets. */
  predicate Stray(t: Torrent, st: Download, e: Event) {
    (e.GotHave? || e.GotRequest?) && e.i < |st.peers| && st.peers[e.i].state == Good && Strays(t, st, e)
  }

  /** Every event keeps the invariant, but for an oversize bit field and a stray
      block number, which only end the run. */
  lemma StepKeeps(t: Torrent, w: World, st: Download, e: Event)
    requires Positive(t, w) && Inv(t, w, st)
    ensures var r := Step(t, st, e, w);
            if Oversize(t, st, e) || Stray(t, st, e) then r == st.(died := true) else Inv(t, w, r)
  {
    assert !st.died;
    assert IsMessage(e) || (!Oversize(t, st, e) && !Stray(t, st, e));
    assert IsMessage(e) || e.Joined? || e.Connected? || e.Shaken? || e.Broken? || e.Gone? || e.Snubbed? || e.Round?;
    hide *;
    match e
    case Joined(incoming) => JoinedKeeps(t, w, st, incoming);
    case Round(_) => LargeStepKeeps(t, w, st, e);
    case Gone(_) => LargeStepKeeps(t, w, st, e);
    case Connected(i) => ConnectedKeeps(t, w, st, i);
    case Shaken(i) => HandshakeKeeps(t, w, st, i);
    case Broken(_) => MarkKeeps(t, w, st, e);
    case Snubbed(_) => MarkKeeps(t, w, st, e);
    case _ => MessageKeeps(t, w, st, e);
  }

  lemma LargeStepKeeps(t: Torrent, w: World, st: Download, e: Event)
    requires Positive(t, w) && Inv(t, w, st) && !st.died && (e.Round? || e.Gone?)
    ensures Inv(t, w, Step(t, st, e, w))
  {
    hide Inv, Positive, Handle, Favorites, Disconnect;
    if e.Round? {
      RoundKeeps(t, w, st, e.rank);
    } else if e.i < |st.peers| {
      DisconnectKeeps(t, w, st, e.i);
    }
  }

  predicate IsMessage(e: Event) {
    e.GotChoke? || e.GotUnchoke? || e.GotInterested? || e.GotHave? || e.GotBitfield? || e.GotRequest? || e.GotPiece?
    || e.GotCancel?
  }

  lemma MessageKeeps(t: Torrent, w: World, st: Download, e: Event)
    requires IsMessage(e) && Positive(t, w) && Inv(t, w, st) && !st.died
    ensures var r := Step(t, st, e, w);
            if Oversize(t, st, e) || Stray(t, st, e) then r == st.(died := true) else Inv(t, w, r)
  {
    MessageStep(t, w, st, e);
    hide Inv, Positive, Handle, Step;
    if e.i < |st.peers| && st.peers[e.i].state == Good {
      HandleKeeps(t, w, st, e);
    }
  }

  lemma MessageStep(t: Torrent, w: World, st: Download, e: Event)
    requires IsMessage(e) && !st.died
    ensures Step(t, st, e, w) == if e.i < |st.peers| && st.peers[e.i].state == Good then Handle(t, st, e, w) else st
  {
    hide Handle;
  }

  /** The events that set a mark on one peer. */
  lemma MarkKeeps(t: Torrent, w: World, st: Download, e: Event)
    requires Inv(t, w, st) && (e.Broken? || e.Snubbed?)
    ensures Inv(t, w, Step(t, st, e, w))
  {
    var i := e.i;
    if i < |st.peers| {
      BlocksKnown(t, st);
      hide Inv, Handle, Favorites;
      var p := if e.Broken? then st.peers[i].(state := Error) else st.peers[i].(localSnubbed := true);
      OnePeerStays(t, w, st, i, p, st.interestedPeers, st.incomplete);
    }
  }

  lemma ConnectedKeeps(t: Torrent, w: World, st: Download, i: nat)
    requires Inv(t, w, st)
    ensures Inv(t, w, Step(t, st, Connected(i), w))
  {
    if i < |st.peers| && st.peers[i].state == Init {
      ShakenKeeps(t, w, st, i, Outgoing, st.incomplete);
      hide Inv;
      var p := st.peers[i].(state := Outgoing);
      assert SetPeer(st, i, p).(incomplete := st.incomplete) == SetPeer(st, i, p);
    }
  }

  lemma HandshakeKeeps(t: Torrent, w: World, st: Download, i: nat)
    requires Inv(t, w, st)
    ensures Inv(t, w, Step(t, st, Shaken(i), w))
  {
    if i < |st.peers| && Connecting(st.peers[i]) {
      ShakenKeeps(t, w, st, i, Good, st.incomplete + 1);
    }
    hide Inv;
  }

  // ------------------------------------------------------------------ the start

  /** What checking a piece on disk finds: `Absent` carries the piece at which
      the missing file ends. */
  datatype Review = Verified | Corrupt | Absent(next: nat) | Unreadable

  /** The pieces that loading finds complete, from piece `i` on. */
  function Survey(t: Torrent, review: nat -> Review, i: nat): (s: set<nat>)
    ensures forall n :: n in s ==> i <= n < t.npieces && review(n) == Verified
    decreases t.npieces - i
  {
    if i >= t.npieces then {}
    else
      match review(i)
      case Verified => {i} + Survey(t, review, i + 1)
      case Absent(next) => Survey(t, review, (if next > i then next else i) + 1)
      case _ => Survey(t, review, i + 1)
  }

  lemma SurveyOnce(t: Torrent, review: nat -> Review, i: nat)
    requires i < t.npieces
    ensures var outcome := review(i);
            Survey(t, review, i) == (if outcome == Verified then {i} else {})
                                  + Survey(t, review, (if outcome.Absent? && outcome.next > i then outcome.next else i) + 1)
  {
  }

  /** What `completed` holds when the survey has come to piece `i`. */
  ghost predicate Surveyed(t: Torrent, assumeOk: bool, review: nat -> Review, completed: set<nat>, i: nat) {
    && (forall n :: n in completed ==> n < i && n < t.npieces)
    && (assumeOk ==> i <= t.npieces && completed == Range(0, i))
    && (!assumeOk ==> completed + Survey(t, review, i) == Survey(t, review, 0))
  }

  lemma SurveyedNext(t: Torrent, assumeOk: bool, review: nat -> Review, completed: set<nat>, i: nat)
    requires i < t.npieces && Surveyed(t, assumeOk, review, completed, i)
    ensures var outcome := if assumeOk then Verified else review(i);
            Surveyed(t, assumeOk, review, if outcome == Verified then completed + {i} else completed,
                     (if outcome.Absent? && outcome.next > i then outcome.next else i) + 1)
  {
    if !assumeOk {
      SurveyOnce(t, review, i);
      hide Survey;
    }
  }

  /** The accounting loop of `ctx_loadfile`. */
  method LoadFile(t: Torrent, assumeOk: bool, review: nat -> Review) returns (st: Download)
    ensures st == Loaded(t, st.completed, Range(0, t.npieces) - st.completed)
    ensures st.completed == if assumeOk then Range(0, t.npieces) else Survey(t, review, 0)
  {
    var completed, requested: set<nat> := {}, {};
    var interested := Range(0, t.npieces);
    var left: int := t.tsize;
    var i: nat := 0;
    TotalEmpty(t, t.npieces);
    hide Total, PieceLen, Survey;
    while i < t.npieces
      invariant requested == completed && interested == Range(0, t.npieces) - completed
      invariant i !in completed
      invariant left == t.tsize - Total(t, completed, t.npieces)
      invariant Surveyed(t, assumeOk, review, completed, i)
      decreases t.npieces - i
    {
      var outcome := if assumeOk then Verified else review(i);
      SurveyedNext(t, assumeOk, review, completed, i);
      if outcome == Verified {
        TotalAdd(t, completed, i, t.npieces);
        left := left - PieceLen(t, i);
        completed := completed + {i};
        requested := requested + {i};
        interested := interested - {i};
      } else if outcome.Absent? && outcome.next > i {
        i := outcome.next;
      }
      i := i + 1;
    }
    st := Download([], [], requested, interested, completed, left, 0, 0, 0, [], map[], false);
  }

  lemma LoadedInv(t: Torrent, w: World, found: set<nat>, interested: set<nat>)
    requires found <= Range(0, t.npieces)
    ensures Inv(t, w, Loaded(t, found, interested))
  {
  }

  // --------------------------------------------------------------------- the runs

  /** The piece hashes stay what they are; everything else may differ from one
      event to the next. */
  ghost predicate Admissible(steps: seq<(World, Event)>, hashed: (nat, seq<bv8>) -> bool) {
    forall k :: 0 <= k < |steps| ==> Fair(steps[k].0) && steps[k].0.hashed == hashed
  }

  function Run(t: Torrent, start: Download, steps: seq<(World, Event)>): Download {
    if steps == [] then start
    else
      var last := steps[|steps| - 1];
      Step(t, Run(t, start, steps[..|steps| - 1]), last.1, last.0)
  }

  lemma InvLives(t: Torrent, w: World, st: Download)
    requires Inv(t, w, st)
    ensures !st.died && Living(st) == st
  {
  }

  lemma SameHash(t: Torrent, v: World, w: World, st: Download)
    requires Inv(t, v, st) && v.hashed == w.hashed
    ensures Inv(t, w, st)
  {
    hide PeersOk, ChokeOk, PartialInv, SetsOk, WireOk;
  }

  /** The state as the last event left it that did not end the program. */
  function Living(st: Download): Download {
    st.(died := false)
  }

  /** An oversize bit field, or a stray block number, was handled along the run. */
  ghost predicate MetOversize(t: Torrent, start: Download, steps: seq<(World, Event)>) {
    exists k :: 0 <= k < |steps| && Oversize(t, Run(t, start, steps[..k]), steps[k].1)
  }

  ghost predicate MetStray(t: Torrent, start: Download, steps: seq<(World, Event)>) {
    exists k :: 0 <= k < |steps| && Stray(t, Run(t, start, steps[..k]), steps[k].1)
  }

  lemma MetOneMore(t: Torrent, start: Download, steps: seq<(World, Event)>)
    requires steps != []
    ensures var n := |steps| - 1;
            var front, before, e := steps[..n], Run(t, start, steps[..n]), steps[n].1;
            && (MetOversize(t, start, steps) <==> MetOversize(t, start, front) || Oversize(t, before, e))
            && (MetStray(t, start, steps) <==> MetStray(t, start, front) || Stray(t, before, e))
  {
    hide Oversize, Stray, Run;
    var n := |steps| - 1;
    assert forall k :: 0 <= k < n ==> steps[..n][..k] == steps[..k] && steps[..n][k] == steps[k];
  }

  /** The invariant holds along every run, and a run ends early just when an
      oversize bit field or a stray block number was handled. */
  lemma {:induction false} RunKeeps(t: Torrent, w: World, start: Download, steps: seq<(World, Event)>)
    requires t.blocksize > 0 && Inv(t, w, start) && Admissible(steps, w.hashed)
    ensures var st := Run(t, start, steps);
            Inv(t, w, Living(st)) && (st.died <==> MetOversize(t, start, steps) || MetStray(t, start, steps))
  {
    assert Inv(t, w, start) ==> !start.died;
    hide Inv, Step;
    if steps != [] {
      var last := steps[|steps| - 1];
      var before := Run(t, start, steps[..|steps| - 1]);
      RunKeeps(t, w, start, steps[..|steps| - 1]);
      MetOneMore(t, start, steps);
      if !before.died {
        assert Living(before) == before;
        SameHash(t, w, last.0, before);
        StepKeeps(t, last.0, before, last.1);
        var after := Step(t, before, last.1, last.0);
        if !Oversize(t, before, last.1) && !Stray(t, before, last.1) {
          SameHash(t, last.0, w, after);
          InvLives(t, w, after);
        }
      }
    }
  }

  /** In every run, each peer has at most ten requests outstanding, all for bytes
      of the piece it works on; a peer that chokes us has none, and none was ever
      sent to it while it did.  So the bounds check of `seg_writebuf` and the other
      checks of the engine hold: what ends a run is just a bit field that is too
      long, or a block number outside the bit sets. */
  lemma RequestsStayInside(t: Torrent, w: World, found: set<nat>, interested: set<nat>, steps: seq<(World, Event)>)
    requires t.blocksize > 0 && found <= Range(0, t.npieces) && Admissible(steps, w.hashed)
    ensures var st := Run(t, Loaded(t, found, interested), steps);
            && (forall j :: 0 <= j < |st.peers| ==>
                  && |st.peers[j].inqueue| <= REQMAX
                  && (st.peers[j].remoteChoked ==> st.peers[j].current == NoPiece && st.peers[j].inqueue == [])
                  && (forall k :: 0 <= k < |st.peers[j].inqueue| ==>
                        st.peers[j].current != NoPiece
                        && InPiece(t, st.peers[j].current.number, st.peers[j].inqueue[k])))
            && (forall k :: 0 <= k < |st.wire| && st.wire[k].msg.RequestMsg? ==>
                  !st.wire[k].choking && InPiece(t, st.wire[k].msg.req.block, st.wire[k].msg.req))
            && (st.died <==> MetOversize(t, Loaded(t, found, interested), steps)
                             || MetStray(t, Loaded(t, found, interested), steps))
  {
    LoadedInv(t, w, found, interested);
    var start := Loaded(t, found, interested);
    RunKeeps(t, w, start, steps);
    var st := Run(t, start, steps);
    hide Run, Loaded, InPiece;
    forall j | 0 <= j < |st.peers| ensures PeerOk(t, st.peers[j], Numbers(st.partial)) { LivePeer(t, Living(st), j); }
  }

  /** For one: a peer joins, completes its handshake and sends such a bit field. */
  lemma OversizeKills(t: Torrent, w: World, found: set<nat>, interested: set<nat>, bits: seq<bv8>)
    requires |bits| > Bytes(t.npieces)
    ensures Run(t, Loaded(t, found, interested), [(w, Joined(true)), (w, Shaken(0)), (w, GotBitfield(0, bits))]).died
  {
    var _ := NewcomerHandled(t, w, Loaded(t, found, interested), GotBitfield(0, bits));
  }

  /** For another: it tells of a block outside the bit sets. */
  lemma StrayKills(t: Torrent, w: World, found: set<nat>, interested: set<nat>, block: int)
    requires Outside(t, block)
    ensures Run(t, Loaded(t, found, interested), [(w, Joined(true)), (w, Shaken(0)), (w, GotHave(0, block))]).died
  {
    var _ := NewcomerHandled(t, w, Loaded(t, found, interested), GotHave(0, block));
  }

  lemma NewcomerHandled(t: Torrent, w: World, start: Download, e: Event) returns (st: Download)
    requires start.peers == [] && !start.died && (e.GotHave? || e.GotBitfield?) && e.i == 0
    ensures |st.peers| == 1 && Run(t, start, [(w, Joined(true)), (w, Shaken(0)), (w, e)]) == Handle(t, st, e, w)
  {
    var joined := Step(t, start, Joined(true), w);
    st := Step(t, joined, Shaken(0), w);
    assert |st.peers| == 1 && st.peers[0].state == Good && !st.died;
    assert Step(t, st, e, w) == Handle(t, st, e, w);
    hide Step, Handle;
    RunThree(t, start, (w, Joined(true)), (w, Shaken(0)), (w, e));
  }

  lemma RunThree(t: Torrent, start: Download, a: (World, Event), b: (World, Event), c: (World, Event))
    ensures Run(t, start, [a, b, c]) == Step(t, Step(t, Step(t, start, a.1, a.0), b.1, b.0), c.1, c.0)
  {
    hide Step;
    assert [a, b, c][..2] == [a, b] && [a, b][..1] == [a] && [a][..0] == [];
    assert Run(t, start, [a]) == Step(t, start, a.1, a.0);
    assert Run(t, start, [a, b]) == Step(t, Run(t, start, [a]), b.1, b.0);
  }

  /** In every run, partial pieces have different numbers, none is completed and
      every peer works on one of them; a completed piece passed its hash check
      with the bytes that were written, and is not wanted again unless it is
      marked as requested; and the bytes to come are exactly those of the pieces
      that are not complete, so each piece is credited once.  Once every piece is
      complete no peer works on one. */
  lemma PiecesAreAccountedFor(t: Torrent, w: World, found: set<nat>, interested: set<nat>, steps: seq<(World, Event)>)
    requires t.blocksize > 0 && found <= Range(0, t.npieces) && Admissible(steps, w.hashed)
    ensures var st := Run(t, Loaded(t, found, interested), steps);
            && (forall j, k :: 0 <= j < k < |st.partial| ==> st.partial[j].number != st.partial[k].number)
            && (forall k :: 0 <= k < |st.partial| ==> st.partial[k].number !in st.completed)
            && (forall j :: 0 <= j < |st.peers| && st.peers[j].current != NoPiece ==>
                  exists k :: 0 <= k < |st.partial| && st.partial[k].number == st.peers[j].current.number)
            && (forall n :: n in st.disk ==> n in st.completed && w.hashed(n, st.disk[n]))
            && st.completed * st.interested <= st.requested
            && st.left + Total(t, st.completed, t.npieces) == t.tsize
            && (Consistent(t) ==> st.left >= 0 && (st.left == 0 <==> st.completed == Range(0, t.npieces)))
            && (st.completed == Range(0, t.npieces) ==>
                  forall j :: 0 <= j < |st.peers| ==> st.peers[j].current == NoPiece)
  {
    LoadedInv(t, w, found, interested);
    var start := Loaded(t, found, interested);
    RunKeeps(t, w, start, steps);
    var st := Run(t, start, steps);
    hide Run, Loaded;
    forall j | 0 <= j < |st.peers| && st.peers[j].current != NoPiece
      ensures exists k :: 0 <= k < |st.partial| && st.partial[k].number == st.peers[j].current.number
    {
      LivePeer(t, Living(st), j);
    }
    forall k | 0 <= k < |st.partial| ensures st.partial[k].number !in st.completed && st.partial[k].number < t.npieces {
      assert PartialOk(t, st.completed, st.partial[k]);
    }
    if Consistent(t) {
      BytesToCome(t, st.completed);
    }
  }

  lemma BytesToCome(t: Torrent, completed: set<nat>)
    requires Consistent(t) && completed <= Range(0, t.npieces)
    ensures Total(t, completed, t.npieces) <= t.tsize
    ensures Total(t, completed, t.npieces) == t.tsize <==> completed == Range(0, t.npieces)
  {
    var all := Range(0, t.npieces);
    AllPieces(t, all);
    TotalMonotone(t, completed, all, t.npieces);
    if completed != all {
      var k: nat :| k in all && k !in completed;
      assert PieceLen(t, k) > 0;
    }
  }

  /** In every run no more than four GOOD peers are unchoked. */
  lemma AtMostFourDownload(t: Torrent, w: World, found: set<nat>, interested: set<nat>, steps: seq<(World, Event)>)
    requires t.blocksize > 0 && found <= Range(0, t.npieces) && Admissible(steps, w.hashed)
    ensures Uploads(Run(t, Loaded(t, found, interested), steps).peers) <= DOWNLOADS
  {
    LoadedInv(t, w, found, interested);
    RunKeeps(t, w, Loaded(t, found, interested), steps);
  }
}
