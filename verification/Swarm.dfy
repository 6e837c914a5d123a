/** One download and its peers: pieces are handed to peers, asked for block by
    block, filled in, checked and credited.  A piece is referred to by its
    number where the C code holds a pointer to it. */
module Swarm {
  import opened Pieces
  import opened RequestRing
  import opened BitSets

  const REQMAX: nat := 10
  const REQUEST_SIZE: nat := 16384

  datatype Partial = Partial(number: nat, filled: set<nat>, buffer: seq<bv8>, nextbyteReq: int, isdone: bool)

  datatype PeerState = Init | Outgoing | Incoming | Good | Error
  datatype Assigned = NoPiece | Piece(number: nat)

  /** `remote…` is what the peer does to us, `local…` what we do to it. */
  datatype Peer = Peer(
    state: PeerState, blocks: set<nat>, current: Assigned,
    inqueue: seq<Request>, queue: seq<Request>,
    remoteChoked: bool, remoteInterested: bool, remoteSnubbed: bool, remoteComplete: bool,
    localChoked: bool, localInterested: bool, localSnubbed: bool)

  datatype Message =
    | ChokeMsg(on: bool) | InterestedMsg(on: bool) | HaveMsg(piece: nat)
    | RequestMsg(req: Request) | CancelMsg(req: Request)

  /** A message sent, and whether its receiver was choking us. */
  datatype Sent = Sent(peer: nat, choking: bool, msg: Message)

  /** `left` counts the bytes still to come, `disk` holds what completed pieces
      wrote, `died` says that the run has ended: a DIE_UNLESS was violated, or memory
      outside a bit set was touched. */
  datatype Download = Download(
    peers: seq<Peer>, partial: seq<Partial>,
    requested: set<nat>, interested: set<nat>, completed: set<nat>,
    left: int, dl: int, interestedPeers: int, incomplete: int,
    wire: seq<Sent>, disk: map<nat, seq<bv8>>, died: bool)

  /** What the outside decides: the rate of a peer, the random pick among some
      blocks and the failure of a send, each as of the number of messages sent so
      far; and whether a piece has the right hash. */
  datatype World = World(
    rate: (nat, nat) -> int, pick: (nat, set<nat>) -> nat, fails: nat -> bool, hashed: (nat, seq<bv8>) -> bool)

  ghost predicate Fair(w: World) {
    forall n, s :: s != {} ==> w.pick(n, s) in s
  }

  // ------------------------------------------------------------------ small steps

  function SetPeer(st: Download, i: nat, p: Peer): Download
    requires i < |st.peers|
  {
    st.(peers := st.peers[i := p])
  }

  function Send(st: Download, i: nat, msg: Message): Download
    requires i < |st.peers|
  {
    st.(wire := st.wire + [Sent(i, st.peers[i].remoteChoked, msg)])
  }

  function Find(partial: seq<Partial>, n: nat): (k: nat)
    ensures k <= |partial|
    ensures k < |partial| ==> partial[k].number == n
    ensures forall j :: 0 <= j < k ==> partial[j].number != n
  {
    if partial == [] then 0
    else if partial[0].number == n then 0
    else
      var k := 1 + Find(partial[1..], n);
      assert forall j :: 0 < j < k ==> partial[j] == partial[1..][j - 1];
      k
  }

  /** The first missing byte, or 0 when none is missing (`bs_firstClr`). */
  function FirstClr(filled: set<nat>, k: nat, n: nat): (r: nat)
    ensures r == 0 || (k <= r < n && r !in filled)
    decreases n - k
  {
    if k >= n then 0 else if k !in filled then k else FirstClr(filled, k + 1, n)
  }

  function WithNext(partial: seq<Partial>, n: nat, next: int): seq<Partial> {
    var k := Find(partial, n);
    if k < |partial| then partial[k := partial[k].(nextbyteReq := next)] else partial
  }

  /** Gives up the claim on a piece; it restarts at its first missing byte. */
  function Release(t: Torrent, st: Download, n: nat): Download {
    var k := Find(st.partial, n);
    if k == |st.partial| then st.(requested := st.requested - {n}, died := true)
    else
      st.(requested := st.requested - {n},
          partial := WithNext(st.partial, n, FirstClr(st.partial[k].filled, 0, PieceLen(t, n))))
  }

  function Wanted(st: Download, p: Peer, excluded: set<nat>): set<nat> {
    (p.blocks * st.interested) - excluded
  }

  /** Tells the peer when our interest in it changed; -1 is a send error. */
  function UpdateInterested(st: Download, i: nat, w: World): (Download, int)
    requires i < |st.peers|
  {
    var p := st.peers[i];
    var interest := Wanted(st, p, st.completed) != {};
    if interest == p.localInterested then (st, if interest then 1 else 0)
    else
      var told := Send(SetPeer(st, i, p.(localInterested := interest)), i, InterestedMsg(interest));
      (told, if w.fails(|st.wire|) then -1 else if interest then 1 else 0)
  }

  function CountPeers(peers: seq<Peer>, n: nat): nat {
    if peers == [] then 0
    else CountPeers(peers[..|peers| - 1], n) + if peers[|peers| - 1].current == Piece(n) then 1 else 0
  }

  /** A partial piece the peer has and nobody is working on. */
  function IdlePartial(st: Download, p: Peer, k: nat): (r: nat)
    requires k <= |st.partial|
    ensures k <= r <= |st.partial|
    decreases |st.partial| - k
  {
    if k == |st.partial| then k
    else if st.partial[k].number in st.requested || st.partial[k].number !in p.blocks then IdlePartial(st, p, k + 1)
    else k
  }

  /** A partial piece to share: one the peer has, or one four peers work on. */
  function SharedPartial(st: Download, p: Peer, k: nat): (r: nat)
    requires k <= |st.partial|
    ensures k <= r <= |st.partial|
    decreases |st.partial| - k
  {
    if k == |st.partial| then k
    else if st.partial[k].number !in p.blocks && CountPeers(st.peers, st.partial[k].number) < 4 then SharedPartial(st, p, k + 1)
    else k
  }

  function NewPartial(t: Torrent, n: nat): Partial {
    Partial(n, {}, seq(PieceLen(t, n), _ => 0), 0, false)
  }

  /** `seg_getPiece`: finds a partial piece or starts one. */
  function GetPiece(t: Torrent, st: Download, n: nat): Download {
    if n >= t.npieces then st.(died := true)
    else if Find(st.partial, n) < |st.partial| then st
    else st.(partial := st.partial + [NewPartial(t, n)])
  }

  function Claim(st: Download, i: nat, n: nat): Download
    requires i < |st.peers|
  {
    SetPeer(st, i, st.peers[i].(current := Piece(n))).(requested := st.requested + {n})
  }

  /** Whether partial pieces are assigned to one peer at a time. */
  predicate OneAtATime(st: Download) {
    st.interestedPeers > 4 || st.incomplete <= 4 || |st.peers| - st.incomplete > 10
  }

  function AssignBlock(t: Torrent, st: Download, i: nat, w: World): Download
    requires i < |st.peers|
  {
    var p := st.peers[i];
    var k := if OneAtATime(st) then IdlePartial(st, p, 0) else SharedPartial(st, p, 0);
    if k < |st.partial| then Claim(st, i, st.partial[k].number)
    else
      var unclaimed := Wanted(st, p, st.requested);
      var missing := Wanted(st, p, st.completed);
      if unclaimed != {} then
        var n := w.pick(|st.wire|, unclaimed);
        Claim(GetPiece(t, st, n), i, n)
      else if missing != {} then
        var n := w.pick(|st.wire|, missing);
        Claim(GetPiece(t, st, n), i, n)
      else st
  }

  function TowardsZero(a: int, b: int): int
    requires b > 0
  {
    if a >= 0 then a / b else -((-a) / b)
  }

  /** How many requests to have in flight at a given rate. */
  function Window(rate: int): (n: nat)
    ensures 2 <= n <= REQMAX
  {
    var q := TowardsZero(15 * TowardsZero(rate, 1024), 16);
    if q > REQMAX then REQMAX else if q < 2 then 2 else q
  }

  /** The next request for a piece, and where the piece goes on afterwards. */
  function NextRequest(t: Torrent, piece: Partial): (r: Request)
    ensures r.length <= REQUEST_SIZE
  {
    var blocklen := PieceLen(t, piece.number);
    var start :=
      if blocklen != piece.nextbyteReq then piece.nextbyteReq
      else if piece.isdone then 0
      else FirstClr(piece.filled, 0, blocklen);
    var len := blocklen - start;
    Request(piece.number, start, if len > REQUEST_SIZE then REQUEST_SIZE else len)
  }

  /** Sends the next request for a piece and moves the piece on. */
  function AskOne(t: Torrent, st: Download, i: nat, piece: Partial): (r: Download)
    requires i < |st.peers| && |st.peers[i].inqueue| < REQMAX
    ensures |r.peers| == |st.peers| && |r.peers[i].inqueue| == |st.peers[i].inqueue| + 1
  {
    var p := st.peers[i];
    var r := NextRequest(t, piece);
    SetPeer(Send(st, i, RequestMsg(r)), i, p.(inqueue := Queued(p.inqueue, r)))
      .(partial := WithNext(st.partial, piece.number, r.offset + r.length))
  }

  /** Sends requests until `window` are in flight; the result is -1 when the
      last one could not be sent. */
  function Ask(t: Torrent, st: Download, i: nat, w: World, window: nat, res: int): (r: (Download, int))
    requires i < |st.peers| && window <= REQMAX
    ensures |r.0.peers| == |st.peers|
    decreases window - |st.peers[i].inqueue|
  {
    var p := st.peers[i];
    if |p.inqueue| >= window || p.current == NoPiece then (st, res)
    else
      var k := Find(st.partial, p.current.number);
      if k == |st.partial| then (st.(died := true), 0)
      else
        var piece := st.partial[k];
        if PieceLen(t, piece.number) == piece.nextbyteReq && !piece.isdone && p.inqueue != [] then (st, 0)
        else
          var r := NextRequest(t, piece);
          if r.length == 0 then (st.(partial := WithNext(st.partial, piece.number, r.offset)), 0)
          else Ask(t, AskOne(t, st, i, piece), i, w, window, if w.fails(|st.wire|) then -1 else 0)
  }

  function SendRequest(t: Torrent, st: Download, i: nat, w: World): (r: (Download, int))
    requires i < |st.peers|
    ensures |r.0.peers| == |st.peers|
  {
    var rate := w.rate(i, |st.wire|);
    var ready := if st.peers[i].current == NoPiece then AssignBlock(t, st, i, w) else st;
    if ready.peers[i].current == NoPiece then (UpdateInterested(ready, i, w).0, 0)
    else Ask(t, ready, i, w, Window(rate), 0)
  }

  // ---------------------------------------------------------------- the messages

  function RecvChoke(t: Torrent, st: Download, i: nat): Download
    requires i < |st.peers|
  {
    var p := st.peers[i];
    if p.remoteChoked then st
    else
      var freed := if p.current == NoPiece then st else Release(t, st, p.current.number);
      SetPeer(freed, i, p.(remoteChoked := true, current := NoPiece, inqueue := []))
  }

  function RecvUnchoke(t: Torrent, st: Download, i: nat, w: World): (Download, int)
    requires i < |st.peers|
  {
    var p := st.peers[i];
    if !p.remoteChoked then (st, 0)
    else
      var open := SetPeer(st, i, p.(remoteChoked := false));
      if p.localInterested then SendRequest(t, open, i, w)
      else
        var (told, interest) := UpdateInterested(open, i, w);
        if interest == 0 then (told, 0) else SendRequest(t, told, i, w)
  }

  function RecvInterested(st: Download, i: nat, on: bool): Download
    requires i < |st.peers|
  {
    SetPeer(st, i, st.peers[i].(remoteInterested := on))
      .(interestedPeers := st.interestedPeers + if on then 1 else -1)
  }

  function NoteBlocks(t: Torrent, st: Download, i: nat, blocks: set<nat>): Download
    requires i < |st.peers|
  {
    var p := st.peers[i].(blocks := blocks);
    if blocks == Range(0, t.npieces) && !p.remoteComplete then
      SetPeer(st, i, p.(remoteComplete := true)).(incomplete := st.incomplete - 1)
    else SetPeer(st, i, p)
  }

  /** A block number that lies outside the bytes of a bit set. */
  predicate Outside(t: Torrent, block: int) {
    !(0 <= block < 8 * Allocated(t.npieces))
  }

  /** The blocks a peer is known to have; bits past the last block mean nothing. */
  function WithBlock(t: Torrent, blocks: set<nat>, block: int): set<nat> {
    if 0 <= block < t.npieces then blocks + {block as nat} else blocks
  }

  function RecvHave(t: Torrent, st: Download, i: nat, block: int, w: World): (Download, int)
    requires i < |st.peers|
  {
    if Outside(t, block) then (st.(died := true), 0)
    else
      var noted := NoteBlocks(t, st, i, WithBlock(t, st.peers[i].blocks, block));
      var (told, interest) := UpdateInterested(noted, i, w);
      var p := told.peers[i];
      if interest != 0 && !p.remoteSnubbed && !p.remoteChoked then SendRequest(t, told, i, w) else (told, 0)
  }

  /** The bytes of a bit field are written over the first ones of the peer's set;
      a message with more bytes than the set has ends the program. */
  function RecvBitfield(t: Torrent, st: Download, i: nat, data: seq<bv8>, w: World): Download
    requires i < |st.peers|
  {
    if |data| > Bytes(t.npieces) then st.(died := true)
    else UpdateInterested(NoteBlocks(t, st, i, Overlaid(st.peers[i].blocks, data, t.npieces)), i, w).0
  }

  /** Chokes or unchokes a peer; a change drops what it had asked for. */
  function SendChoke(st: Download, i: nat, on: bool): Download
    requires i < |st.peers|
  {
    var p := st.peers[i];
    Send(if p.localChoked == on then st else SetPeer(st, i, p.(queue := [], localChoked := on)), i, ChokeMsg(on))
  }

  function RecvRequest(t: Torrent, st: Download, i: nat, r: Request): (Download, int)
    requires i < |st.peers|
  {
    var p := st.peers[i];
    if p.localChoked then (st, 0)
    else if Outside(t, r.block) then (st.(died := true), 0)
    else if r.block !in p.blocks && r.block in st.completed then
      (SetPeer(st, i, p.(queue := Queued(p.queue, r))), QueueCode(p.queue, r))
    else (SendChoke(st, i, true), 0)
  }

  /** Copies a block into a piece (`memcpy`). */
  function Patched(buffer: seq<bv8>, offset: nat, data: seq<bv8>): (r: seq<bv8>)
    requires offset + |data| <= |buffer|
    ensures |r| == |buffer|
  {
    buffer[..offset] + data + buffer[offset + |data|..]
  }

  /** `seg_writebuf`: true when the piece is complete and has the right hash. */
  function WriteBuf(t: Torrent, st: Download, piece: nat, offset: int, data: seq<bv8>, w: World): (Download, bool) {
    var k := Find(st.partial, piece);
    if k == |st.partial| then (st, false)
    else
      var p := st.partial[k];
      var blocksize := PieceLen(t, piece);
      if !(offset >= 0 && offset < blocksize && offset + |data| <= blocksize && |data| > 0 && |p.buffer| == blocksize) then
        (st.(died := true), false)
      else
        var filled := p.filled + Range(offset, offset + |data|);
        var buffer := Patched(p.buffer, offset, data);
        var done := p.isdone || filled == Range(0, blocksize);
        if done && w.hashed(piece, buffer) then
          (st.(partial := st.partial[..k] + st.partial[k + 1..],
               dl := st.dl + blocksize, left := st.left - blocksize,
               disk := st.disk[piece := buffer], completed := st.completed + {piece}), true)
        else
          (st.(partial := st.partial[k := p.(filled := filled, buffer := buffer, isdone := done)]), false)
  }

  /** Takes the oldest request of a peer back. */
  function CancelOne(st: Download, i: nat, w: World): (r: Download)
    requires i < |st.peers| && st.peers[i].inqueue != []
    ensures |r.peers| == |st.peers| && |r.peers[i].inqueue| < |st.peers[i].inqueue|
  {
    var p := st.peers[i];
    var left := p.inqueue[1..];
    var next := Send(st, i, CancelMsg(p.inqueue[0]));
    SetPeer(next, i, if w.fails(|st.wire|) then p.(inqueue := left, state := Error) else p.(inqueue := left))
  }

  /** Cancels what a peer had been asked for. */
  function CancelAll(st: Download, i: nat, w: World): (r: Download)
    requires i < |st.peers|
    ensures |r.peers| == |st.peers|
    decreases |st.peers[i].inqueue|
  {
    if st.peers[i].inqueue == [] then st else CancelAll(CancelOne(st, i, w), i, w)
  }

  /** Tells peer `i` that a piece is there; one that worked on it gets another. */
  function NotifyOne(t: Torrent, st: Download, i: nat, piece: nat, w: World): (r: Download)
    requires i < |st.peers|
    ensures |r.peers| == |st.peers|
  {
    var p := st.peers[i];
    var moved :=
      if p.current == Piece(piece) then
        SendRequest(t, CancelAll(SetPeer(st, i, p.(current := NoPiece)), i, w), i, w).0
      else st;
    if moved.peers[i].state != Good then moved
    else
      var told := Send(moved, i, HaveMsg(piece));
      if w.fails(|moved.wire|) then SetPeer(told, i, told.peers[i].(state := Error)) else told
  }

  function Notify(t: Torrent, st: Download, i: nat, piece: nat, w: World): (r: Download)
    requires i <= |st.peers|
    ensures |r.peers| == |st.peers|
    decreases |st.peers| - i
  {
    if i == |st.peers| then st else Notify(t, NotifyOne(t, st, i, piece, w), i + 1, piece, w)
  }

  function RecvPiece(t: Torrent, st: Download, i: nat, piece: nat, offset: int, data: seq<bv8>,
        w: World): (Download, int)
    requires i < |st.peers|
  {
    var p := st.peers[i];
    var r := Request(piece, offset, |data|);
    if p.current == NoPiece || Matches(p.inqueue, r, |p.inqueue|) == 0 then (st, 0)
    else
      var taken := SetPeer(st, i, p.(inqueue := Removed(p.inqueue, r)));
      var (written, done) := WriteBuf(t, taken, piece, offset, data, w);
      var told := if done then Notify(t, written.(interested := written.interested - {piece}), 0, piece, w) else written;
      SendRequest(t, told, i, w)
  }

  function RecvCancel(st: Download, i: nat, r: Request): Download
    requires i < |st.peers|
  {
    SetPeer(st, i, st.peers[i].(queue := Removed(st.peers[i].queue, r)))
  }

  /** `peer_shutdown`, and the removal of the peer from the list. */
  function Disconnect(t: Torrent, st: Download, i: nat): Download
    requires i < |st.peers|
  {
    var p := st.peers[i];
    var freed := if p.current == NoPiece then st else Release(t, st, p.current.number);
    freed.(peers := st.peers[..i] + st.peers[i + 1..])
  }
}
