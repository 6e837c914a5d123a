/** The bytes of a download: what a block does to its piece, and that over whole runs
    every byte held is the one that came last for its place. */
module BlockBytes {
  import opened Pieces
  import opened RequestRing
  import opened BitSets
  import opened Swarm
  import opened SwarmSafety
  import opened Choking
  import opened SwarmRuns

  // --------------------------------------------------------------------- a block

  /** `b` is `a` with `data` laid over it at `offset`. */
  ghost predicate LaidOver(a: seq<bv8>, offset: int, data: seq<bv8>, b: seq<bv8>) {
    && |b| == |a|
    && forall j :: 0 <= j < |a| ==> b[j] == if offset <= j < offset + |data| then data[j - offset] else a[j]
  }

  ghost predicate MarkedOver(a: set<nat>, offset: int, n: nat, b: set<nat>) {
    forall j: nat :: j in b <==> j in a || offset <= j < offset + n
  }

  /** A block is laid over its piece, and just its places are marked as filled.  A
      piece that is filled, or once was, is checked: with the right hash its bytes go
      to disk and it is complete; with a wrong one it stays, and is known for it. */
  lemma WriteBufDoes(t: Torrent, st: Download, piece: nat, offset: int, data: seq<bv8>, w: World, k: nat)
      returns (filled: set<nat>, buffer: seq<bv8>)
    requires k < |st.partial| && Find(st.partial, piece) == k
    requires 0 <= offset && |data| > 0 && offset + |data| <= PieceLen(t, piece) == |st.partial[k].buffer|
    ensures LaidOver(st.partial[k].buffer, offset, data, buffer) && MarkedOver(st.partial[k].filled, offset, |data|, filled)
    ensures var r, done := WriteBuf(t, st, piece, offset, data, w).0, WriteBuf(t, st, piece, offset, data, w).1;
            var p := st.partial[k];
            var full := p.isdone || filled == Range(0, PieceLen(t, piece));
            && (done <==> full && w.hashed(piece, buffer))
            && (if done then
                  r == st.(partial := st.partial[..k] + st.partial[k + 1..], disk := st.disk[piece := buffer],
                           completed := st.completed + {piece}, dl := st.dl + PieceLen(t, piece),
                           left := st.left - PieceLen(t, piece))
                else r == st.(partial := st.partial[k := p.(filled := filled, buffer := buffer, isdone := full)]))
  {
    var p := st.partial[k];
    buffer, filled := Patched(p.buffer, offset, data), p.filled + Range(offset, offset + |data|);
    PatchedIs(p.buffer, offset, data);
    assert MarkedOver(p.filled, offset, |data|, filled);
    hide Patched, PieceLen, Find;
  }

  lemma PatchedIs(a: seq<bv8>, offset: nat, data: seq<bv8>)
    requires offset + |data| <= |a|
    ensures LaidOver(a, offset, data, Patched(a, offset, data))
  {
  }

  // ------------------------------------------------------------- pieces left alone

  /** What is held of a piece: which places are filled, the bytes, and whether it was
      full once. */
  datatype View = Nothing | Part(filled: set<nat>, buffer: seq<bv8>, isdone: bool)

  ghost function ViewOf(partial: seq<Partial>, n: nat): View {
    var k := Find(partial, n);
    if k == |partial| then Nothing else Part(partial[k].filled, partial[k].buffer, partial[k].isdone)
  }

  ghost predicate Same(a: View, b: View) {
    b == a || (a == Nothing && b.Part? && b.filled == {} && !b.isdone)
  }

  /** Partial pieces are as they were, or started and empty. */
  ghost predicate Like(a: seq<Partial>, b: seq<Partial>) {
    forall n: nat :: Same(ViewOf(a, n), ViewOf(b, n))
  }

  ghost predicate Quiet(st: Download, r: Download) {
    r.disk == st.disk && Like(st.partial, r.partial)
  }

  lemma LikeSelf(a: seq<Partial>)
    ensures Like(a, a)
  {
    hide Find;
  }

  lemma QuietMore(a: Download, b: Download, c: Download)
    requires Quiet(a, b) && Quiet(b, c)
    ensures Quiet(a, c)
  {
    hide ViewOf;
    forall n: nat
      ensures Same(ViewOf(a.partial, n), ViewOf(c.partial, n))
    {
      assert Same(ViewOf(a.partial, n), ViewOf(b.partial, n));
      assert Same(ViewOf(b.partial, n), ViewOf(c.partial, n));
    }
  }

  lemma QuietSame(a: Download, b: Download)
    requires b.disk == a.disk && b.partial == a.partial
    ensures Quiet(a, b)
  {
    LikeSelf(a.partial);
    hide Like;
  }

  lemma {:induction false} FindSame(a: seq<Partial>, b: seq<Partial>, n: nat)
    requires |a| == |b| && forall k :: 0 <= k < |a| ==> a[k].number == b[k].number
    ensures Find(a, n) == Find(b, n)
  {
  }

  lemma NextQuiet(a: seq<Partial>, n: nat, next: int)
    ensures Like(a, WithNext(a, n, next))
  {
    var b := WithNext(a, n, next);
    assert |b| == |a| && forall k :: 0 <= k < |a| ==> b[k] == a[k].(nextbyteReq := b[k].nextbyteReq);
    forall m: nat
      ensures ViewOf(b, m) == ViewOf(a, m)
    {
      FindSame(a, b, m);
    }
    hide WithNext, Find;
  }

  lemma {:induction false} FindAppended(a: seq<Partial>, p: Partial, n: nat)
    ensures Find(a + [p], n) == if Find(a, n) < |a| then Find(a, n) else if p.number == n then |a| else |a| + 1
  {
    var all := a + [p];
    assert forall j :: 0 <= j < |a| ==> all[j] == a[j];
    assert all[|a|] == p;
  }

  lemma StartedQuiet(t: Torrent, a: seq<Partial>, n: nat)
    requires Find(a, n) == |a|
    ensures Like(a, a + [NewPartial(t, n)])
  {
    var b := a + [NewPartial(t, n)];
    forall m: nat
      ensures Same(ViewOf(a, m), ViewOf(b, m))
    {
      FindAppended(a, NewPartial(t, n), m);
    }
    hide Find;
  }

  lemma ReleaseQuiet(t: Torrent, st: Download, n: nat)
    ensures Quiet(st, Release(t, st, n))
  {
    var k := Find(st.partial, n);
    if k < |st.partial| {
      NextQuiet(st.partial, n, FirstClr(st.partial[k].filled, 0, PieceLen(t, n)));
    }
    LikeSelf(st.partial);
    hide Like, WithNext;
  }

  lemma AssignQuiet(t: Torrent, st: Download, i: nat, w: World)
    requires i < |st.peers|
    ensures Quiet(st, AssignBlock(t, st, i, w))
  {
    LikeSelf(st.partial);
    forall n: nat
      ensures Quiet(st, GetPiece(t, st, n))
    {
      if Find(st.partial, n) == |st.partial| {
        StartedQuiet(t, st.partial, n);
      }
      hide Like;
    }
    hide Like, IdlePartial, SharedPartial, GetPiece, Wanted, OneAtATime;
  }

  lemma {:induction false} AskQuiet(t: Torrent, st: Download, i: nat, w: World, window: nat, res: int)
    requires i < |st.peers| && window <= REQMAX
    ensures Quiet(st, Ask(t, st, i, w, window, res).0)
    decreases window - |st.peers[i].inqueue|
  {
    QuietSame(st, st);
    var p := st.peers[i];
    if |p.inqueue| < window && p.current != NoPiece && Find(st.partial, p.current.number) < |st.partial| {
      var piece := st.partial[Find(st.partial, p.current.number)];
      var q := NextRequest(t, piece);
      var m := AskOne(t, st, i, piece);
      NextQuiet(st.partial, piece.number, q.offset);
      NextQuiet(st.partial, piece.number, q.offset + q.length);
      assert Quiet(st, m);
      hide Quiet, NextRequest, Find;
      AskQuiet(t, m, i, w, window, if w.fails(|st.wire|) then -1 else 0);
      QuietMore(st, m, Ask(t, m, i, w, window, if w.fails(|st.wire|) then -1 else 0).0);
    }
  }

  lemma SendRequestQuiet(t: Torrent, st: Download, i: nat, w: World)
    requires i < |st.peers|
    ensures Quiet(st, SendRequest(t, st, i, w).0)
  {
    var ready := if st.peers[i].current == NoPiece then AssignBlock(t, st, i, w) else st;
    AssignQuiet(t, st, i, w);
    QuietSame(st, st);
    hide Quiet, AssignBlock, Ask, Window, UpdateInterested;
    if ready.peers[i].current != NoPiece {
      AskQuiet(t, ready, i, w, Window(w.rate(i, |st.wire|)), 0);
      QuietMore(st, ready, SendRequest(t, st, i, w).0);
    } else {
      InterestQuiet(ready, i, w);
      QuietMore(st, ready, SendRequest(t, st, i, w).0);
    }
  }

  lemma InterestQuiet(st: Download, i: nat, w: World)
    requires i < |st.peers|
    ensures Quiet(st, UpdateInterested(st, i, w).0)
  {
    hide Wanted;
    QuietSame(st, UpdateInterested(st, i, w).0);
    hide Quiet;
  }

  lemma {:induction false} CancelsQuiet(st: Download, i: nat, w: World)
    requires i < |st.peers|
    ensures var r := CancelAll(st, i, w); r.disk == st.disk && r.partial == st.partial
    decreases |st.peers[i].inqueue|
  {
    if st.peers[i].inqueue != [] {
      CancelsQuiet(CancelOne(st, i, w), i, w);
    }
  }

  lemma NotifyOneQuiet(t: Torrent, st: Download, i: nat, n: nat, w: World)
    requires i < |st.peers|
    ensures Quiet(st, NotifyOne(t, st, i, n, w))
  {
    var p := st.peers[i];
    var moved := st;
    QuietSame(st, st);
    if p.current == Piece(n) {
      var off := SetPeer(st, i, p.(current := NoPiece));
      var freed := CancelAll(off, i, w);
      CancelsQuiet(off, i, w);
      QuietSame(st, freed);
      SendRequestQuiet(t, freed, i, w);
      moved := SendRequest(t, freed, i, w).0;
      QuietMore(st, freed, moved);
    }
    var r := NotifyOne(t, st, i, n, w);
    hide CancelAll, SendRequest;
    assert r.disk == moved.disk && r.partial == moved.partial;
    QuietSame(moved, r);
    QuietMore(st, moved, r);
    hide Quiet, NotifyOne;
  }

  lemma {:induction false} NotifyQuiet(t: Torrent, st: Download, i: nat, n: nat, w: World)
    requires i <= |st.peers|
    ensures Quiet(st, Notify(t, st, i, n, w))
    decreases |st.peers| - i
  {
    QuietSame(st, st);
    if i < |st.peers| {
      var m := NotifyOne(t, st, i, n, w);
      NotifyOneQuiet(t, st, i, n, w);
      hide Quiet, NotifyOne;
      NotifyQuiet(t, m, i + 1, n, w);
      QuietMore(st, m, Notify(t, m, i + 1, n, w));
    }
  }

  // ------------------------------------------------------------------ every event

  /** A block is accepted when a GOOD peer that works on a piece sends what it has
      been asked for. */
  ghost predicate Accepted(st: Download, e: Event) {
    && e.GotPiece? && !st.died && e.i < |st.peers| && st.peers[e.i].state == Good
    && st.peers[e.i].current != NoPiece && Request(e.piece, e.offset, |e.data|) in st.peers[e.i].inqueue
  }

  /** Whatever else happens, the bytes of every piece are left alone. */
  lemma OthersQuiet(t: Torrent, st: Download, e: Event, w: World)
    requires !Accepted(st, e)
    ensures Quiet(st, Step(t, st, e, w))
  {
    QuietSame(st, st);
    hide Quiet, Favorites;
    if !st.died {
      match e
      case Round(rank) => FavoritesQuiet(st, rank, w);
      case Gone(i) =>
        if i < |st.peers| {
          GoneQuiet(t, st, i);
        }
      case GotChoke(_) => MessageQuiet(t, st, e, w);
      case GotUnchoke(_) => MessageQuiet(t, st, e, w);
      case GotInterested(_, _) => MessageQuiet(t, st, e, w);
      case GotHave(_, _) => MessageQuiet(t, st, e, w);
      case GotBitfield(_, _) => MessageQuiet(t, st, e, w);
      case GotRequest(_, _) => MessageQuiet(t, st, e, w);
      case GotPiece(_, _, _, _) => MessageQuiet(t, st, e, w);
      case GotCancel(_, _) => MessageQuiet(t, st, e, w);
      case _ =>
        hide Disconnect, Handle;
        QuietSame(st, Step(t, st, e, w));
    }
  }

  lemma FavoritesQuiet(st: Download, rank: nat -> int, w: World)
    ensures Quiet(st, Favorites(st, rank, w))
  {
    NotifyChokesDecides(st, |st.peers|, Selected(st.peers, |st.peers|, rank), w);
    QuietSame(st, Favorites(st, rank, w)) by {
      hide Selected, NotifyChokes, Decided;
    }
    hide Quiet;
  }

  lemma GoneQuiet(t: Torrent, st: Download, i: nat)
    requires i < |st.peers|
    ensures Quiet(st, Disconnect(t, st, i))
  {
    var p := st.peers[i];
    var freed := if p.current == NoPiece then st else Release(t, st, p.current.number);
    QuietSame(st, st);
    if p.current != NoPiece {
      ReleaseQuiet(t, st, p.current.number);
    }
    hide Release;
    QuietSame(freed, Disconnect(t, st, i));
    QuietMore(st, freed, Disconnect(t, st, i));
    hide Quiet;
  }

  lemma ChokeQuiet(t: Torrent, st: Download, i: nat)
    requires i < |st.peers|
    ensures Quiet(st, RecvChoke(t, st, i))
  {
    var p := st.peers[i];
    var freed := if p.current == NoPiece then st else Release(t, st, p.current.number);
    QuietSame(st, st);
    if p.current != NoPiece {
      ReleaseQuiet(t, st, p.current.number);
    }
    hide Release;
    if !p.remoteChoked {
      QuietSame(freed, RecvChoke(t, st, i));
      QuietMore(st, freed, RecvChoke(t, st, i));
    }
    hide Quiet;
  }

  lemma UnchokeQuiet(t: Torrent, st: Download, i: nat, w: World)
    requires i < |st.peers|
    ensures Quiet(st, RecvUnchoke(t, st, i, w).0)
  {
    QuietSame(st, st);
    var open := SetPeer(st, i, st.peers[i].(remoteChoked := false));
    QuietSame(st, open);
    hide Quiet, SendRequest, UpdateInterested;
    if st.peers[i].remoteChoked {
      var told := UpdateInterested(open, i, w).0;
      InterestQuiet(open, i, w);
      QuietMore(st, open, told);
      InterestPeers(open, i, w);
      SendRequestQuiet(t, open, i, w);
      SendRequestQuiet(t, told, i, w);
      QuietMore(st, open, SendRequest(t, open, i, w).0);
      QuietMore(st, told, SendRequest(t, told, i, w).0);
    }
  }

  lemma InterestPeers(st: Download, i: nat, w: World)
    requires i < |st.peers|
    ensures |UpdateInterested(st, i, w).0.peers| == |st.peers|
  {
    hide Wanted;
  }

  lemma HaveQuiet(t: Torrent, st: Download, i: nat, block: int, w: World)
    requires i < |st.peers|
    ensures Quiet(st, RecvHave(t, st, i, block, w).0)
  {
    var noted := NoteBlocks(t, st, i, WithBlock(t, st.peers[i].blocks, block));
    QuietSame(st, noted);
    QuietSame(st, st.(died := true));
    hide Quiet, SendRequest, UpdateInterested, NoteBlocks, WithBlock, Outside;
    var told := UpdateInterested(noted, i, w).0;
    assert |noted.peers| == |st.peers| by { NotedPeers(t, st, i, WithBlock(t, st.peers[i].blocks, block)); }
    InterestQuiet(noted, i, w);
    InterestPeers(noted, i, w);
    QuietMore(st, noted, told);
    SendRequestQuiet(t, told, i, w);
    QuietMore(st, told, SendRequest(t, told, i, w).0);
  }

  lemma NotedPeers(t: Torrent, st: Download, i: nat, blocks: set<nat>)
    requires i < |st.peers|
    ensures |NoteBlocks(t, st, i, blocks).peers| == |st.peers|
  {
  }

  lemma BitfieldQuiet(t: Torrent, st: Download, i: nat, bits: seq<bv8>, w: World)
    requires i < |st.peers|
    ensures Quiet(st, RecvBitfield(t, st, i, bits, w))
  {
    var blocks := Overlaid(st.peers[i].blocks, bits, t.npieces);
    var noted := NoteBlocks(t, st, i, blocks);
    QuietSame(st, noted);
    QuietSame(st, st.(died := true));
    NotedPeers(t, st, i, blocks);
    hide Quiet, UpdateInterested, NoteBlocks, Overlaid;
    InterestQuiet(noted, i, w);
    QuietMore(st, noted, UpdateInterested(noted, i, w).0);
  }

  lemma MessageQuiet(t: Torrent, st: Download, e: Event, w: World)
    requires IsMessage(e) && !st.died && !Accepted(st, e)
    ensures Quiet(st, Step(t, st, e, w))
  {
    QuietSame(st, st);
    MessageStep(t, w, st, e);
    if e.i < |st.peers| && st.peers[e.i].state == Good {
      HandleQuiet(t, st, e, w);
    }
    hide Quiet, Step, Handle;
  }

  lemma HandleQuiet(t: Torrent, st: Download, e: Event, w: World)
    requires IsMessage(e) && !st.died && !Accepted(st, e) && e.i < |st.peers| && st.peers[e.i].state == Good
    ensures Quiet(st, Handle(t, st, e, w))
  {
    QuietSame(st, st);
    hide Quiet, RecvChoke, RecvUnchoke, RecvHave, RecvBitfield, Removed, Queued, Matches;
    match e
    case GotChoke(i) => ChokeQuiet(t, st, i);
    case GotUnchoke(i) => UnchokeQuiet(t, st, i, w);
    case GotInterested(i, on) => QuietSame(st, RecvInterested(st, i, on));
    case GotHave(i, block) => HaveQuiet(t, st, i, block, w);
    case GotBitfield(i, bits) => BitfieldQuiet(t, st, i, bits, w);
    case GotRequest(i, req) => QuietSame(st, RecvRequest(t, st, i, req).0);
    case GotPiece(i, piece, offset, data) => UnwantedIs(t, st, i, piece, offset, data, w);
    case GotCancel(i, req) => QuietSame(st, RecvCancel(st, i, req));
  }

  lemma UnwantedIs(t: Torrent, st: Download, i: nat, piece: nat, offset: int, data: seq<bv8>, w: World)
    requires i < |st.peers|
    requires st.peers[i].current == NoPiece || Request(piece, offset, |data|) !in st.peers[i].inqueue
    ensures RecvPiece(t, st, i, piece, offset, data, w) == (st, 0)
  {
    var q, r := st.peers[i].inqueue, Request(piece, offset, |data|);
    if Matches(q, r, |q|) > 0 {
      var k := MatchesFound(q, r, |q|);
    }
    hide Matches, WriteBuf, Notify, SendRequest, Removed;
  }

  // ------------------------------------------------------------- a block accepted

  ghost predicate Distinct(partial: seq<Partial>) {
    forall j, k :: 0 <= j < k < |partial| ==> partial[j].number != partial[k].number
  }

  lemma FindAt(partial: seq<Partial>, k: nat)
    requires k < |partial| && Distinct(partial)
    ensures Find(partial, partial[k].number) == k
  {
  }

  lemma SlotViews(partial: seq<Partial>, k: nat, p: Partial, n: nat)
    requires k < |partial| && Distinct(partial) && p.number == partial[k].number
    ensures var r := partial[k := p];
            ViewOf(r, n) == if n == p.number then Part(p.filled, p.buffer, p.isdone) else ViewOf(partial, n)
  {
    var r := partial[k := p];
    FindSame(partial, r, n);
    FindAt(partial, k);
    hide Find;
  }

  lemma CutViews(partial: seq<Partial>, k: nat, n: nat)
    requires k < |partial| && Distinct(partial)
    ensures var r := partial[..k] + partial[k + 1..];
            ViewOf(r, n) == if n == partial[k].number then Nothing else ViewOf(partial, n)
  {
    var r := partial[..k] + partial[k + 1..];
    assert forall j :: 0 <= j < |r| ==> r[j] == partial[if j < k then j else j + 1];
    assert Distinct(r);
    var x, y := Find(partial, n), Find(r, n);
    hide Find;
    if y < |r| {
      FindAt(partial, if y < k then y else y + 1);
    } else {
      forall j | 0 <= j < |partial| && j != k
        ensures partial[j].number != n
      {
        assert r[if j < k then j else j - 1] == partial[j];
      }
    }
  }

  /** What an accepted block does to the pieces: see `WriteBufDoes`. */
  ghost predicate Lays(t: Torrent, a: Download, e: Event, w: World, b: Download, filled: set<nat>, buffer: seq<bv8>)
    requires e.GotPiece?
  {
    var was := ViewOf(a.partial, e.piece);
    && was.Part? && LaidOver(was.buffer, e.offset, e.data, buffer) && MarkedOver(was.filled, e.offset, |e.data|, filled)
    && (var full := was.isdone || filled == Range(0, PieceLen(t, e.piece));
        if full && w.hashed(e.piece, buffer)
        then b.disk == a.disk[e.piece := buffer] && ViewOf(b.partial, e.piece) == Nothing
        else b.disk == a.disk && ViewOf(b.partial, e.piece) == Part(filled, buffer, full))
    && (forall n: nat :: n != e.piece ==> Same(ViewOf(a.partial, n), ViewOf(b.partial, n)))
  }

  lemma WrittenLays(t: Torrent, w: World, st: Download, e: Event) returns (filled: set<nat>, buffer: seq<bv8>)
    requires e.GotPiece? && e.piece in Numbers(st.partial) && PartialInv(t, st.partial, st.completed)
    requires InPiece(t, e.piece, Request(e.piece, e.offset, |e.data|))
    ensures Lays(t, st, e, w, WriteBuf(t, st, e.piece, e.offset, e.data, w).0, filled, buffer)
  {
    FindsNumber(st.partial, e.piece);
    var k := Find(st.partial, e.piece);
    assert PartialOk(t, st.completed, st.partial[k]);
    assert Distinct(st.partial);
    filled, buffer := WriteBufDoes(t, st, e.piece, e.offset, e.data, w, k);
    var r, done := WriteBuf(t, st, e.piece, e.offset, e.data, w).0, WriteBuf(t, st, e.piece, e.offset, e.data, w).1;
    hide WriteBuf, PieceLen, Find, PartialInv, Numbers, LaidOver, MarkedOver;
    forall n: nat
      ensures n != e.piece ==> ViewOf(r.partial, n) == ViewOf(st.partial, n)
    {
      if done {
        CutViews(st.partial, k, n);
      } else {
        SlotViews(st.partial, k, r.partial[k], n);
      }
    }
    if done {
      CutViews(st.partial, k, e.piece);
    } else {
      SlotViews(st.partial, k, r.partial[k], e.piece);
    }
  }

  lemma LaysOn(t: Torrent, a: Download, e: Event, w: World, b: Download, filled: set<nat>, buffer: seq<bv8>, c: Download)
    requires e.GotPiece? && Lays(t, a, e, w, b, filled, buffer) && Quiet(b, c)
    requires e.piece in c.disk ==> ViewOf(c.partial, e.piece) == Nothing
    ensures Lays(t, a, e, w, c, filled, buffer)
  {
    hide ViewOf, LaidOver, MarkedOver;
    forall n: nat | n != e.piece
      ensures Same(ViewOf(a.partial, n), ViewOf(c.partial, n))
    {
      assert Same(ViewOf(a.partial, n), ViewOf(b.partial, n));
      assert Same(ViewOf(b.partial, n), ViewOf(c.partial, n));
    }
    assert Same(ViewOf(b.partial, e.piece), ViewOf(c.partial, e.piece));
  }

  lemma LaysAlike(t: Torrent, a: Download, b: Download, e: Event, w: World, c: Download, filled: set<nat>, buffer: seq<bv8>)
    requires e.GotPiece? && Lays(t, a, e, w, c, filled, buffer) && b.partial == a.partial && b.disk == a.disk
    ensures Lays(t, b, e, w, c, filled, buffer)
  {
    hide ViewOf, LaidOver, MarkedOver;
  }

  lemma PieceStep(t: Torrent, w: World, st: Download, e: Event)
    requires Accepted(st, e)
    ensures Step(t, st, e, w) == RecvPiece(t, st, e.i, e.piece, e.offset, e.data, w).0
  {
    hide RecvPiece;
  }

  /** What follows the write leaves the bytes alone. */
  lemma AfterWrite(t: Torrent, w: World, st: Download, e: Event, taken: Download, written: Download)
    requires Accepted(st, e)
    requires taken == SetPeer(st, e.i, st.peers[e.i].(inqueue := Removed(st.peers[e.i].inqueue, Request(e.piece, e.offset, |e.data|))))
    requires written == WriteBuf(t, taken, e.piece, e.offset, e.data, w).0
    ensures Quiet(written, RecvPiece(t, st, e.i, e.piece, e.offset, e.data, w).0)
  {
    var q := Request(e.piece, e.offset, |e.data|);
    var p, done := st.peers[e.i], WriteBuf(t, taken, e.piece, e.offset, e.data, w).1;
    var clear := written.(interested := written.interested - {e.piece});
    var told := if done then Notify(t, clear, 0, e.piece, w) else written;
    InqueueMatches(p.inqueue, q);
    WrittenPeers(t, taken, e.piece, e.offset, e.data, w);
    QuietSame(written, clear);
    QuietSame(written, written);
    NotifyQuiet(t, clear, 0, e.piece, w);
    QuietMore(written, clear, Notify(t, clear, 0, e.piece, w));
    SendRequestQuiet(t, told, e.i, w);
    QuietMore(written, told, SendRequest(t, told, e.i, w).0);
    hide Quiet, Matches, Removed, WriteBuf, Notify, SendRequest;
  }

  lemma {:induction false} InqueueMatches(q: seq<Request>, r: Request)
    requires r in q
    ensures Matches(q, r, |q|) > 0
  {
    var k :| 0 <= k < |q| && q[k] == r;
    MatchesGrow(q, r, k + 1, |q|);
  }

  lemma {:induction false} MatchesGrow(q: seq<Request>, r: Request, m: nat, n: nat)
    requires m <= n <= |q|
    ensures Matches(q, r, m) <= Matches(q, r, n)
  {
    if m < n {
      MatchesGrow(q, r, m, n - 1);
    }
  }

  lemma WrittenPeers(t: Torrent, st: Download, piece: nat, offset: int, data: seq<bv8>, w: World)
    ensures WriteBuf(t, st, piece, offset, data, w).0.peers == st.peers
  {
    hide Patched, PieceLen, Find;
  }

  lemma NotPartial(t: Torrent, w: World, st: Download, n: nat)
    requires Inv(t, w, st) && n in st.disk
    ensures ViewOf(st.partial, n) == Nothing
  {
    forall k | 0 <= k < |st.partial|
      ensures st.partial[k].number !in st.completed
    {
      assert PartialOk(t, st.completed, st.partial[k]);
    }
  }

  /** From an accepted block to the pieces after the whole event. */
  lemma AcceptedLays(t: Torrent, w: World, st: Download, e: Event) returns (filled: set<nat>, buffer: seq<bv8>)
    requires Positive(t, w) && Inv(t, w, st) && Accepted(st, e)
    ensures Inv(t, w, Step(t, st, e, w)) && InPiece(t, e.piece, Request(e.piece, e.offset, |e.data|))
    ensures Lays(t, st, e, w, Step(t, st, e, w), filled, buffer)
  {
    var q, p := Request(e.piece, e.offset, |e.data|), st.peers[e.i];
    AcceptedInside(t, w, st, e);
    var taken := SetPeer(st, e.i, p.(inqueue := Removed(p.inqueue, q)));
    assert PartialInv(t, st.partial, st.completed) && taken.partial == st.partial && taken.disk == st.disk;
    hide *;
    var written := WriteBuf(t, taken, e.piece, e.offset, e.data, w).0;
    filled, buffer := WrittenLays(t, w, taken, e);
    var r := Step(t, st, e, w);
    PieceStep(t, w, st, e);
    if e.piece in r.disk {
      NotPartial(t, w, r, e.piece);
    }
    AfterWrite(t, w, st, e, taken, written);
    LaysAlike(t, taken, st, e, w, written, filled, buffer);
    LaysOn(t, st, e, w, written, filled, buffer, r);
  }

  /** An accepted block lies inside a partial piece. */
  lemma AcceptedInside(t: Torrent, w: World, st: Download, e: Event)
    requires Positive(t, w) && Inv(t, w, st) && Accepted(st, e)
    ensures e.piece in Numbers(st.partial) && InPiece(t, e.piece, Request(e.piece, e.offset, |e.data|))
    ensures Inv(t, w, Step(t, st, e, w))
  {
    var q, p := Request(e.piece, e.offset, |e.data|), st.peers[e.i];
    LivePeer(t, st, e.i);
    var k :| 0 <= k < |p.inqueue| && p.inqueue[k] == q;
    assert InPiece(t, p.current.number, p.inqueue[k]);
    StepKeeps(t, w, st, e);
    hide Step, Inv, Numbers;
  }

  // -------------------------------------------------------------- over whole runs

  datatype MaybeByte = None | Some(b: bv8)

  /** The byte that came last, in an accepted block, for a place of a piece. */
  ghost function Came(t: Torrent, start: Download, steps: seq<(World, Event)>, n: nat, j: nat): MaybeByte {
    if steps == [] then None
    else
      var k, e := |steps| - 1, steps[|steps| - 1].1;
      if Accepted(Run(t, start, steps[..k]), e) && e.piece == n && e.offset <= j < e.offset + |e.data|
      then Some(e.data[j - e.offset])
      else Came(t, start, steps[..k], n, j)
  }

  ghost function CameAll(t: Torrent, start: Download, steps: seq<(World, Event)>, n: nat): (c: seq<MaybeByte>)
    ensures |c| == PieceLen(t, n)
  {
    seq(PieceLen(t, n), j requires 0 <= j < PieceLen(t, n) => Came(t, start, steps, n, j))
  }

  /** What is held of a piece is what came: nothing, or the places filled with the
      bytes that came for them, or on disk all bytes. */
  ghost predicate Held(v: View, onDisk: bool, d: seq<bv8>, c: seq<MaybeByte>) {
    if v.Part? then
      && !onDisk && |v.buffer| == |c|
      && (forall j: nat :: j < |c| ==> (j in v.filled <==> c[j].Some?) && (j in v.filled ==> c[j] == Some(v.buffer[j])))
      && (forall j: nat :: j in v.filled ==> j < |c|)
      && (v.isdone ==> forall j :: 0 <= j < |c| ==> c[j].Some?)
    else if onDisk then |d| == |c| && forall j :: 0 <= j < |c| ==> c[j] == Some(d[j])
    else forall j :: 0 <= j < |c| ==> c[j] == None
  }

  ghost predicate HeldIn(t: Torrent, st: Download, n: nat, c: seq<MaybeByte>) {
    Held(ViewOf(st.partial, n), n in st.disk, if n in st.disk then st.disk[n] else [], c)
  }

  lemma HeldSame(v: View, u: View, onDisk: bool, d: seq<bv8>, c: seq<MaybeByte>)
    requires Held(v, onDisk, d, c) && Same(v, u) && (u.Part? ==> |u.buffer| == |c| && !onDisk)
    ensures Held(u, onDisk, d, c)
  {
  }

  /** `data` has come for the places from `offset` on. */
  ghost predicate CameOver(c: seq<MaybeByte>, offset: int, data: seq<bv8>, e: seq<MaybeByte>) {
    && |e| == |c|
    && forall j :: 0 <= j < |c| ==> e[j] == if offset <= j < offset + |data| then Some(data[j - offset]) else c[j]
  }

  lemma HeldLaid(v: View, offset: int, data: seq<bv8>, filled: set<nat>, buffer: seq<bv8>, c: seq<MaybeByte>, e: seq<MaybeByte>)
    requires v.Part? && Held(v, false, [], c) && CameOver(c, offset, data, e) && 0 <= offset && offset + |data| <= |c|
    requires LaidOver(v.buffer, offset, data, buffer) && MarkedOver(v.filled, offset, |data|, filled)
    ensures var full := v.isdone || filled == Range(0, |c|);
            && Held(Part(filled, buffer, full), false, [], e)
            && (full ==> Held(Nothing, true, buffer, e))
  {
    assert forall j: nat :: j < |c| ==> (j in filled <==> e[j].Some?);
    assert forall j: nat :: j < |c| && j in filled ==> e[j] == Some(buffer[j]);
    hide MarkedOver, LaidOver;
    if filled == Range(0, |c|) {
      assert forall j: nat :: j < |c| ==> j in filled;
    }
  }

  lemma CameNext(t: Torrent, start: Download, steps: seq<(World, Event)>, n: nat)
    requires steps != []
    ensures var k, e := |steps| - 1, steps[|steps| - 1].1;
            var was, now := CameAll(t, start, steps[..k], n), CameAll(t, start, steps, n);
            if Accepted(Run(t, start, steps[..k]), e) && e.piece == n then CameOver(was, e.offset, e.data, now) else now == was
  {
    hide PieceLen, Accepted, Run;
  }

  lemma BuffersFit(t: Torrent, w: World, st: Download, n: nat)
    requires Inv(t, w, st)
    ensures ViewOf(st.partial, n).Part? ==> |ViewOf(st.partial, n).buffer| == PieceLen(t, n) && n !in st.disk
  {
    var k := Find(st.partial, n);
    if k < |st.partial| {
      assert PartialOk(t, st.completed, st.partial[k]);
    }
    hide PieceLen, Find;
  }

  lemma QuietHolds(t: Torrent, w: World, st: Download, r: Download, n: nat, c: seq<MaybeByte>)
    requires Quiet(st, r) && Inv(t, w, Living(r)) && |c| == PieceLen(t, n) && HeldIn(t, st, n, c)
    ensures HeldIn(t, r, n, c)
  {
    BuffersFit(t, w, Living(r), n);
    hide Inv, Held, ViewOf, PieceLen;
    assert Same(ViewOf(st.partial, n), ViewOf(r.partial, n));
    HeldSame(ViewOf(st.partial, n), ViewOf(r.partial, n), n in st.disk, if n in st.disk then st.disk[n] else [], c);
  }

  lemma LaidHolds(t: Torrent, v: World, w: World, st: Download, e: Event, r: Download, filled: set<nat>, buffer: seq<bv8>,
                  n: nat, c: seq<MaybeByte>, now: seq<MaybeByte>)
    requires e.GotPiece? && Lays(t, st, e, v, r, filled, buffer) && Inv(t, w, r)
    requires InPiece(t, e.piece, Request(e.piece, e.offset, |e.data|))
    requires |c| == PieceLen(t, n) && HeldIn(t, st, n, c)
    requires if n == e.piece then CameOver(c, e.offset, e.data, now) else now == c
    ensures HeldIn(t, r, n, now)
  {
    BuffersFit(t, w, r, n);
    hide Inv, ViewOf, PieceLen, LaidOver, MarkedOver;
    var was := ViewOf(st.partial, n);
    if n == e.piece {
      assert n !in st.disk;
      HeldLaid(was, e.offset, e.data, filled, buffer, c, now);
    } else {
      HeldSame(was, ViewOf(r.partial, n), n in st.disk, if n in st.disk then st.disk[n] else [], c);
    }
    hide Held;
  }

  /** In every run each byte held of a piece, in memory or on disk, is the one that
      came last for its place, and the places filled are those for which one came. */
  lemma {:induction false} RunHolds(t: Torrent, w: World, start: Download, steps: seq<(World, Event)>, n: nat)
    requires t.blocksize > 0 && Inv(t, w, start) && Admissible(steps, w.hashed)
    requires start.partial == [] && start.disk == map[]
    ensures HeldIn(t, Run(t, start, steps), n, CameAll(t, start, steps, n))
  {
    RunKeeps(t, w, start, steps);
    if steps == [] {
      assert ViewOf([], n) == Nothing;
      hide PieceLen, Inv;
    } else {
      var k := |steps| - 1;
      var front, v, e := steps[..k], steps[k].0, steps[k].1;
      var before, r := Run(t, start, front), Run(t, start, steps);
      assert Admissible(front, w.hashed) && Fair(v) && v.hashed == w.hashed;
      assert r == Step(t, before, e, v);
      RunKeeps(t, w, start, front);
      CameNext(t, start, steps, n);
      hide *;
      RunHolds(t, w, start, front, n);
      StepHolds(t, v, w, before, e, n, CameAll(t, start, front, n), CameAll(t, start, steps, n));
    }
  }

  lemma StepHolds(t: Torrent, v: World, w: World, before: Download, e: Event, n: nat, was: seq<MaybeByte>, now: seq<MaybeByte>)
    requires t.blocksize > 0 && Fair(v) && v.hashed == w.hashed && Inv(t, w, Living(before))
    requires Inv(t, w, Living(Step(t, before, e, v)))
    requires |was| == PieceLen(t, n) && HeldIn(t, before, n, was)
    requires if Accepted(before, e) && e.piece == n then CameOver(was, e.offset, e.data, now) else now == was
    ensures HeldIn(t, Step(t, before, e, v), n, now)
  {
    var r := Step(t, before, e, v);
    if Accepted(before, e) {
      assert Living(before) == before && Positive(t, v) && e.GotPiece?;
      hide *;
      SameHash(t, w, v, before);
      var filled, buffer := AcceptedLays(t, v, before, e);
      LaidHolds(t, v, v, before, e, r, filled, buffer, n, was, now);
    } else {
      hide *;
      OthersQuiet(t, before, e, v);
      QuietHolds(t, w, before, r, n, was);
    }
  }

  /** So over whole runs from the start of a download: a place of a partial piece is
      marked as filled just when a block that was asked for has come for it, and then
      holds the byte that came last; a piece on disk has all its bytes, each the one
      that came last; and the bytes that came for a piece are held nowhere else. */
  lemma BytesAreWhatCame(t: Torrent, w: World, found: set<nat>, interested: set<nat>, steps: seq<(World, Event)>)
    requires t.blocksize > 0 && found <= Range(0, t.npieces) && Admissible(steps, w.hashed)
    ensures var start := Loaded(t, found, interested);
            var st := Run(t, start, steps);
            && (forall k, j :: 0 <= k < |st.partial| && 0 <= j < PieceLen(t, st.partial[k].number) ==>
                  PlaceHolds(st.partial[k], j, Came(t, start, steps, st.partial[k].number, j)))
            && (forall n, j :: n in st.disk && 0 <= j < PieceLen(t, n) ==>
                  |st.disk[n]| == PieceLen(t, n) && Came(t, start, steps, n, j) == Some(st.disk[n][j]))
            && (forall n: nat, j: nat :: j < PieceLen(t, n) && Came(t, start, steps, n, j).Some? ==>
                  n in st.disk || n in Numbers(st.partial))
  {
    var start := Loaded(t, found, interested);
    LoadedInv(t, w, found, interested);
    var st := Run(t, start, steps);
    RunKeeps(t, w, start, steps);
    assert Distinct(st.partial);
    hide Loaded, Inv, Run, PieceLen, Came, Admissible;
    forall k, j | 0 <= k < |st.partial| && 0 <= j < PieceLen(t, st.partial[k].number)
      ensures PlaceHolds(st.partial[k], j, Came(t, start, steps, st.partial[k].number, j))
    {
      RunHolds(t, w, start, steps, st.partial[k].number);
      FindAt(st.partial, k);
      assert CameAll(t, start, steps, st.partial[k].number)[j] == Came(t, start, steps, st.partial[k].number, j);
    }
    forall n, j | n in st.disk && 0 <= j < PieceLen(t, n)
      ensures |st.disk[n]| == PieceLen(t, n) && Came(t, start, steps, n, j) == Some(st.disk[n][j])
    {
      RunHolds(t, w, start, steps, n);
      assert CameAll(t, start, steps, n)[j] == Came(t, start, steps, n, j);
    }
    forall n: nat, j: nat | j < PieceLen(t, n) && Came(t, start, steps, n, j).Some?
      ensures n in st.disk || n in Numbers(st.partial)
    {
      RunHolds(t, w, start, steps, n);
      FindsNumber(st.partial, n);
      assert CameAll(t, start, steps, n)[j] == Came(t, start, steps, n, j);
    }
  }

  ghost predicate PlaceHolds(p: Partial, j: nat, came: MaybeByte) {
    (j in p.filled <==> came.Some?) && (j in p.filled ==> j < |p.buffer| && came == Some(p.buffer[j]))
  }
}
