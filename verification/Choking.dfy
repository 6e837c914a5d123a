/** Which peers are allowed to download: every round picks up to four. */
module Choking {
  import opened RequestRing
  import opened Swarm

  const DOWNLOADS: nat := 4

  /** The first favourite that an interested newcomer takes the place of. */
  function PlaceFirst(peers: seq<Peer>, favs: seq<nat>, new_: nat, rank: nat -> int, k: nat): (r: nat)
    requires k <= |favs| && new_ < |peers| && forall j :: 0 <= j < |favs| ==> favs[j] < |peers|
    ensures k <= r <= |favs|
    decreases |favs| - k
  {
    if k == |favs| then k
    else if !peers[favs[k]].remoteInterested || rank(new_) > rank(favs[k]) then k
    else PlaceFirst(peers, favs, new_, rank, k + 1)
  }

  /** The first uninterested favourite that a newcomer outranks. */
  function PlaceLast(peers: seq<Peer>, favs: seq<nat>, new_: nat, rank: nat -> int, k: nat): (r: nat)
    requires k <= |favs| && new_ < |peers| && forall j :: 0 <= j < |favs| ==> favs[j] < |peers|
    ensures k <= r <= |favs|
    decreases |favs| - k
  {
    if k == |favs| then k
    else if !peers[favs[k]].remoteInterested && rank(new_) > rank(favs[k]) then k
    else PlaceLast(peers, favs, new_, rank, k + 1)
  }

  function InsertAt(favs: seq<nat>, k: nat, new_: nat): (r: seq<nat>)
    requires k <= |favs| && k < DOWNLOADS
    ensures |r| <= DOWNLOADS
  {
    var longer := favs[..k] + [new_] + favs[k..];
    if |longer| <= DOWNLOADS then longer else longer[..DOWNLOADS]
  }

  function Prioritized(peers: seq<Peer>, favs: seq<nat>, new_: nat, rank: nat -> int): (r: seq<nat>)
    requires new_ < |peers| && |favs| <= DOWNLOADS && forall j :: 0 <= j < |favs| ==> favs[j] < |peers|
    ensures |r| <= DOWNLOADS
    ensures forall j :: 0 <= j < |r| ==> r[j] == new_ || r[j] in favs
  {
    var p := peers[new_];
    var first := PlaceFirst(peers, favs, new_, rank, 0);
    var last := PlaceLast(peers, favs, new_, rank, 0);
    if !p.localSnubbed && p.remoteInterested && first < DOWNLOADS then InsertAt(favs, first, new_)
    else if last < DOWNLOADS then InsertAt(favs, last, new_)
    else favs
  }

  /** The favourites among the first `n` peers. */
  function Selected(peers: seq<Peer>, n: nat, rank: nat -> int): (favs: seq<nat>)
    requires n <= |peers|
    ensures |favs| <= DOWNLOADS
    ensures forall j :: 0 <= j < |favs| ==> favs[j] < n && peers[favs[j]].state == Good
  {
    if n == 0 then []
    else
      var favs := Selected(peers, n - 1, rank);
      if peers[n - 1].state == Good then Prioritized(peers, favs, n - 1, rank) else favs
  }

  /** Tells one peer if its status changed; a send that fails costs it the
      connection. */
  function NotifyChoke(st: Download, i: nat, favs: seq<nat>, w: World): (r: Download)
    requires i < |st.peers|
    ensures |r.peers| == |st.peers|
  {
    var p := st.peers[i];
    var on := i !in favs;
    if p.localChoked == on || (on && p.state != Good) then st
    else
      var told := SendChoke(st, i, on);
      if w.fails(|st.wire|) then SetPeer(told, i, told.peers[i].(state := Error)) else told
  }

  function NotifyChokes(st: Download, n: nat, favs: seq<nat>, w: World): (r: Download)
    requires n <= |st.peers|
    ensures |r.peers| == |st.peers|
  {
    if n == 0 then st else NotifyChoke(NotifyChokes(st, n - 1, favs, w), n - 1, favs, w)
  }

  function Favorites(st: Download, rank: nat -> int, w: World): Download {
    NotifyChokes(st, |st.peers|, Selected(st.peers, |st.peers|, rank), w)
  }

  // ------------------------------------------------------------ who is selected

  /** Interested peers come first, then the faster, then the earlier. */
  ghost predicate Ahead(peers: seq<Peer>, rank: nat -> int, a: nat, b: nat)
    requires a < |peers| && b < |peers|
  {
    var ia, ib := peers[a].remoteInterested, peers[b].remoteInterested;
    (ia && !ib) || (ia == ib && (rank(a) > rank(b) || (rank(a) == rank(b) && a < b)))
  }

  ghost predicate IsGood(peers: seq<Peer>, n: nat, i: nat)
    requires n <= |peers|
  {
    i < n && peers[i].state == Good
  }

  /** `favs` are the best of the GOOD peers below `n`, best first. */
  ghost predicate IsTop(peers: seq<Peer>, n: nat, rank: nat -> int, favs: seq<nat>)
    requires n <= |peers|
  {
    && (forall j :: 0 <= j < |favs| ==> IsGood(peers, n, favs[j]))
    && (forall j, k :: 0 <= j < k < |favs| ==> Ahead(peers, rank, favs[j], favs[k]))
    && (forall x, j :: IsGood(peers, n, x) && x !in favs && 0 <= j < |favs| ==> Ahead(peers, rank, favs[j], x))
    && (forall x :: IsGood(peers, n, x) && x !in favs ==> |favs| == DOWNLOADS)
  }

  lemma {:induction false} PlaceFirstIs(peers: seq<Peer>, favs: seq<nat>, x: nat, rank: nat -> int, k: nat)
    requires k <= |favs| && x < |peers| && peers[x].remoteInterested
    requires forall j :: 0 <= j < |favs| ==> favs[j] < x
    ensures var r := PlaceFirst(peers, favs, x, rank, k);
            && (r < |favs| ==> Ahead(peers, rank, x, favs[r]))
            && (forall j :: k <= j < r ==> Ahead(peers, rank, favs[j], x) && peers[favs[j]].remoteInterested)
    decreases |favs| - k
  {
    if k < |favs| && !(!peers[favs[k]].remoteInterested || rank(x) > rank(favs[k])) {
      PlaceFirstIs(peers, favs, x, rank, k + 1);
    }
  }

  lemma {:induction false} PlaceLastIs(peers: seq<Peer>, favs: seq<nat>, x: nat, rank: nat -> int, k: nat)
    requires k <= |favs| && x < |peers|
    requires forall j :: 0 <= j < |favs| ==> favs[j] < x
    requires peers[x].remoteInterested ==> forall j :: 0 <= j < |favs| ==> peers[favs[j]].remoteInterested
    ensures var r := PlaceLast(peers, favs, x, rank, k);
            && (peers[x].remoteInterested ==> r == |favs|)
            && (!peers[x].remoteInterested ==>
                  && (r < |favs| ==> Ahead(peers, rank, x, favs[r]))
                  && (forall j :: k <= j < r ==> Ahead(peers, rank, favs[j], x)))
    decreases |favs| - k
  {
    if k < |favs| && !(!peers[favs[k]].remoteInterested && rank(x) > rank(favs[k])) {
      PlaceLastIs(peers, favs, x, rank, k + 1);
    }
  }

  lemma InsertAtIs(favs: seq<nat>, k: nat, x: nat)
    requires k <= |favs| <= DOWNLOADS && k < DOWNLOADS
    ensures var r := InsertAt(favs, k, x);
            && |r| == (if |favs| < DOWNLOADS then |favs| + 1 else DOWNLOADS)
            && (forall j :: 0 <= j < |r| ==> r[j] == if j < k then favs[j] else if j == k then x else favs[j - 1])
  {
  }

  lemma AheadTrans(peers: seq<Peer>, rank: nat -> int, a: nat, b: nat, c: nat)
    requires a < |peers| && b < |peers| && c < |peers|
    requires Ahead(peers, rank, a, b) && Ahead(peers, rank, b, c)
    ensures Ahead(peers, rank, a, c)
  {
  }

  /** The newcomer is ahead of every favourite from its place on. */
  lemma AheadOfRest(peers: seq<Peer>, n: nat, rank: nat -> int, favs: seq<nat>, k: nat, j: nat)
    requires n < |peers| && IsTop(peers, n, rank, favs)
    requires k <= j < |favs| && Ahead(peers, rank, n, favs[k])
    ensures Ahead(peers, rank, n, favs[j])
  {
    hide Ahead;
    if k < j {
      AheadTrans(peers, rank, n, favs[k], favs[j]);
    }
  }

  lemma StaysIn(favs: seq<nat>, k: nat, x: nat, i: nat)
    requires k <= |favs| <= DOWNLOADS && k < DOWNLOADS && i < |favs|
    ensures i < k || i + 1 < |InsertAt(favs, k, x)| ==> favs[i] in InsertAt(favs, k, x)
  {
    InsertAtIs(favs, k, x);
    hide InsertAt;
    var r := InsertAt(favs, k, x);
    if i < k {
      assert r[i] == favs[i];
    } else if i + 1 < |r| {
      assert r[i + 1] == favs[i];
    }
  }

  /** A peer left out after the newcomer came in is behind all the others. */
  lemma LeftOut(peers: seq<Peer>, n: nat, rank: nat -> int, favs: seq<nat>, k: nat, x: nat, j: nat)
    requires n < |peers| && peers[n].state == Good && IsTop(peers, n, rank, favs) && |favs| <= DOWNLOADS
    requires k <= |favs| && k < DOWNLOADS && (k < |favs| ==> Ahead(peers, rank, n, favs[k]))
    requires IsGood(peers, n + 1, x) && x !in InsertAt(favs, k, n)
    ensures |InsertAt(favs, k, n)| == DOWNLOADS
    ensures 0 <= j < |InsertAt(favs, k, n)| ==> Ahead(peers, rank, InsertAt(favs, k, n)[j], x)
  {
    hide Ahead;
    InsertAtIs(favs, k, n);
    hide InsertAt;
    var r := InsertAt(favs, k, n);
    assert r[k] == n;
    if x in favs {
      var i :| 0 <= i < |favs| && favs[i] == x;
      StaysIn(favs, k, n, i);
      AheadOfRest(peers, n, rank, favs, k, i);
      assert j != k && 0 <= j < |r| ==> Ahead(peers, rank, favs[if j < k then j else j - 1], favs[i]);
    } else {
      assert IsGood(peers, n, x);
      if k < |favs| {
        AheadTrans(peers, rank, n, favs[k], x);
      }
    }
  }

  lemma InsertedGood(peers: seq<Peer>, n: nat, rank: nat -> int, favs: seq<nat>, k: nat)
    requires n < |peers| && peers[n].state == Good && IsTop(peers, n, rank, favs) && |favs| <= DOWNLOADS
    requires k <= |favs| && k < DOWNLOADS
    ensures var r := InsertAt(favs, k, n);
            forall j :: 0 <= j < |r| ==> IsGood(peers, n + 1, r[j])
  {
    hide Ahead;
    InsertAtIs(favs, k, n);
    var r := InsertAt(favs, k, n);
    hide InsertAt;
    forall j | 0 <= j < |r|
      ensures IsGood(peers, n + 1, r[j])
    {
      assert j != k ==> IsGood(peers, n, favs[if j < k then j else j - 1]);
    }
  }

  lemma InsertKeepsOrder(peers: seq<Peer>, n: nat, rank: nat -> int, favs: seq<nat>, k: nat, i: nat, j: nat)
    requires n < |peers| && peers[n].state == Good && IsTop(peers, n, rank, favs) && |favs| <= DOWNLOADS
    requires k <= |favs| && k < DOWNLOADS && i < j < |InsertAt(favs, k, n)|
    requires forall m :: 0 <= m < k ==> Ahead(peers, rank, favs[m], n)
    requires k < |favs| ==> Ahead(peers, rank, n, favs[k])
    ensures var r := InsertAt(favs, k, n);
            && r[i] < |peers| && r[j] < |peers|
            && Ahead(peers, rank, r[i], r[j])
  {
    hide Ahead;
    InsertAtIs(favs, k, n);
    hide InsertAt;
    if i == k {
      AheadOfRest(peers, n, rank, favs, k, j - 1);
    }
  }

  /** Putting a newcomer in its place among the best keeps them the best. */
  lemma InsertKeepsTop(peers: seq<Peer>, n: nat, rank: nat -> int, favs: seq<nat>, k: nat)
    requires n < |peers| && peers[n].state == Good && IsTop(peers, n, rank, favs) && |favs| <= DOWNLOADS
    requires k <= |favs| && k < DOWNLOADS
    requires forall j :: 0 <= j < k ==> Ahead(peers, rank, favs[j], n)
    requires k < |favs| ==> Ahead(peers, rank, n, favs[k])
    ensures IsTop(peers, n + 1, rank, InsertAt(favs, k, n))
  {
    hide Ahead;
    InsertedGood(peers, n, rank, favs, k);
    var r := InsertAt(favs, k, n);
    hide InsertAt;
    forall i, j | 0 <= i < j < |r|
      ensures Ahead(peers, rank, r[i], r[j])
    {
      InsertKeepsOrder(peers, n, rank, favs, k, i, j);
    }
    forall x, j | IsGood(peers, n + 1, x) && x !in r && 0 <= j < |r|
      ensures Ahead(peers, rank, r[j], x)
    {
      LeftOut(peers, n, rank, favs, k, x, j);
    }
    forall x | IsGood(peers, n + 1, x) && x !in r
      ensures |r| == DOWNLOADS
    {
      LeftOut(peers, n, rank, favs, k, x, 0);
    }
  }

  lemma BehindAll(peers: seq<Peer>, n: nat, rank: nat -> int, favs: seq<nat>)
    requires n < |peers| && IsTop(peers, n, rank, favs)
    requires peers[n].state == Good ==> |favs| == DOWNLOADS
    requires peers[n].state == Good ==> forall j :: 0 <= j < |favs| ==> Ahead(peers, rank, favs[j], n)
    ensures IsTop(peers, n + 1, rank, favs)
  {
  }

  /** With nobody snubbed, folding the peers one by one leaves the best four. */
  lemma {:induction false} SelectedIsTop(peers: seq<Peer>, n: nat, rank: nat -> int)
    requires n <= |peers| && forall i :: 0 <= i < n && peers[i].state == Good ==> !peers[i].localSnubbed
    ensures IsTop(peers, n, rank, Selected(peers, n, rank))
  {
    if n > 0 {
      SelectedIsTop(peers, n - 1, rank);
      var favs := Selected(peers, n - 1, rank);
      var x := n - 1;
      if peers[x].state != Good {
        BehindAll(peers, x, rank, favs);
      } else {
        PlaceOne(peers, x, rank, favs);
      }
    }
  }

  lemma PlaceOne(peers: seq<Peer>, x: nat, rank: nat -> int, favs: seq<nat>)
    requires x < |peers| && peers[x].state == Good && !peers[x].localSnubbed
    requires IsTop(peers, x, rank, favs) && |favs| <= DOWNLOADS
    requires forall j :: 0 <= j < |favs| ==> favs[j] < x
    ensures IsTop(peers, x + 1, rank, Prioritized(peers, favs, x, rank))
  {
    hide IsTop, PlaceFirst, PlaceLast, InsertAt;
    if peers[x].remoteInterested {
      PlaceFirstIs(peers, favs, x, rank, 0);
      var first := PlaceFirst(peers, favs, x, rank, 0);
      if first < DOWNLOADS {
        InsertKeepsTop(peers, x, rank, favs, first);
      } else {
        PlaceLastIs(peers, favs, x, rank, 0);
        BehindAll(peers, x, rank, favs);
      }
    } else {
      PlaceLastIs(peers, favs, x, rank, 0);
      var last := PlaceLast(peers, favs, x, rank, 0);
      if last < DOWNLOADS {
        InsertKeepsTop(peers, x, rank, favs, last);
      } else {
        BehindAll(peers, x, rank, favs);
      }
    }
  }

  ghost function AheadOf(peers: seq<Peer>, rank: nat -> int, x: nat): set<nat>
    requires x < |peers|
  {
    set y: nat | y < |peers| && peers[y].state == Good && Ahead(peers, rank, y, x)
  }

  /** The first `n` entries as a set. */
  ghost function Firsts(s: seq<nat>, n: nat): (r: set<nat>)
    requires n <= |s|
    ensures |r| <= n
    ensures forall x :: x in r <==> x in s[..n]
  {
    if n == 0 then {}
    else
      assert s[..n] == s[..n - 1] + [s[n - 1]];
      Firsts(s, n - 1) + {s[n - 1]}
  }

  lemma {:induction false} PrefixSize(s: seq<nat>, n: nat)
    requires n <= |s| && forall j, k :: 0 <= j < k < |s| ==> s[j] != s[k]
    ensures |Firsts(s, n)| == n
  {
    if n > 0 {
      PrefixSize(s, n - 1);
      assert s[n - 1] !in s[..n - 1];
    }
  }

  lemma {:induction false} SubsetSize(a: set<nat>, b: set<nat>)
    requires a <= b
    ensures |a| <= |b|
  {
    if a != {} {
      var x :| x in a;
      SubsetSize(a - {x}, b - {x});
    }
  }

  /** The peers ahead of a favourite are the favourites before it. */
  lemma SelectedPlace(peers: seq<Peer>, rank: nat -> int, favs: seq<nat>, i: nat)
    requires IsTop(peers, |peers|, rank, favs) && i < |favs|
    ensures |AheadOf(peers, rank, favs[i])| == i
  {
    forall y | y in AheadOf(peers, rank, favs[i])
      ensures y in favs[..i]
    {
      assert IsGood(peers, |peers|, y);
      assert y in favs;
      var j :| 0 <= j < |favs| && favs[j] == y;
      assert j < i && favs[..i][j] == y;
    }
    assert AheadOf(peers, rank, favs[i]) == Firsts(favs, i);
    PrefixSize(favs, i);
  }

  lemma UnselectedPlace(peers: seq<Peer>, rank: nat -> int, favs: seq<nat>, x: nat)
    requires IsTop(peers, |peers|, rank, favs) && IsGood(peers, |peers|, x) && x !in favs
    ensures |AheadOf(peers, rank, x)| >= DOWNLOADS
  {
    PrefixSize(favs, DOWNLOADS);
    forall y | y in Firsts(favs, DOWNLOADS)
      ensures y in AheadOf(peers, rank, x)
    {
      var j :| 0 <= j < |favs| && favs[j] == y;
    }
    SubsetSize(Firsts(favs, DOWNLOADS), AheadOf(peers, rank, x));
  }

  /** With nobody snubbed, a GOOD peer is selected if and only if fewer than four
      GOOD peers come before it in the stable order (interested first, rate
      descending), and its place among the favourites is its place in that order. */
  lemma SelectionIsStableTop(peers: seq<Peer>, rank: nat -> int, x: nat)
    requires forall i :: 0 <= i < |peers| && peers[i].state == Good ==> !peers[i].localSnubbed
    requires x < |peers| && peers[x].state == Good
    ensures var favs := Selected(peers, |peers|, rank);
            && (x in favs <==> |AheadOf(peers, rank, x)| < DOWNLOADS)
            && (x in favs ==> |AheadOf(peers, rank, x)| < |favs| && favs[|AheadOf(peers, rank, x)|] == x)
  {
    var favs := Selected(peers, |peers|, rank);
    SelectedIsTop(peers, |peers|, rank);
    hide IsTop, AheadOf, Selected;
    if x in favs {
      var i :| 0 <= i < |favs| && favs[i] == x;
      SelectedPlace(peers, rank, favs, i);
    } else {
      UnselectedPlace(peers, rank, favs, x);
    }
  }

  // ------------------------------------------------------ who may download, ever

  /** How many GOOD peers are unchoked. */
  ghost function Uploads(peers: seq<Peer>): nat {
    if peers == [] then 0
    else
      var last := peers[|peers| - 1];
      Uploads(peers[..|peers| - 1]) + if last.state == Good && !last.localChoked then 1 else 0
  }

  ghost predicate Connecting(p: Peer) {
    p.state == Init || p.state == Outgoing || p.state == Incoming
  }

  ghost predicate ChokeOk(peers: seq<Peer>) {
    && Uploads(peers) <= DOWNLOADS
    && forall j :: 0 <= j < |peers| && Connecting(peers[j]) ==> peers[j].localChoked
  }

  lemma {:induction false} FewerUploads(a: seq<Peer>, b: seq<Peer>)
    requires |a| == |b|
    requires forall j :: 0 <= j < |a| && b[j].state == Good && !b[j].localChoked ==> a[j].state == Good && !a[j].localChoked
    ensures Uploads(b) <= Uploads(a)
  {
    if a != [] {
      FewerUploads(a[..|a| - 1], b[..|b| - 1]);
    }
  }

  lemma {:induction false} UploadsRemove(a: seq<Peer>, i: nat)
    requires i < |a|
    ensures Uploads(a[..i] + a[i + 1..]) <= Uploads(a)
  {
    var b := a[..i] + a[i + 1..];
    if i == |a| - 1 {
      assert b == a[..i];
    } else {
      UploadsRemove(a[..|a| - 1], i);
      assert b[..|b| - 1] == a[..|a| - 1][..i] + a[..|a| - 1][i + 1..];
    }
  }

  lemma {:induction false} UploadsBound(peers: seq<Peer>, favs: set<nat>)
    requires forall j: nat :: j < |peers| && peers[j].state == Good && !peers[j].localChoked ==> j in favs
    ensures Uploads(peers) <= |favs|
  {
    if peers != [] {
      var n := |peers| - 1;
      if peers[n].state == Good && !peers[n].localChoked {
        UploadsBound(peers[..n], favs - {n});
      } else {
        UploadsBound(peers[..n], favs);
      }
    }
  }

  ghost predicate Decided(a: Peer, b: Peer, chosen: bool) {
    && (b == a || b == a.(queue := b.queue, localChoked := b.localChoked, state := b.state))
    && (b.state == a.state || b.state == Error)
    && (b.state == Good ==> b.localChoked == !chosen)
    && (Connecting(b) && !chosen ==> b.localChoked == a.localChoked)
  }

  lemma NotifyChokeDecides(st: Download, i: nat, favs: seq<nat>, w: World)
    requires i < |st.peers|
    ensures var r := NotifyChoke(st, i, favs, w);
            && r == st.(peers := r.peers, wire := r.wire)
            && Decided(st.peers[i], r.peers[i], i in favs)
            && (forall j :: 0 <= j < |st.peers| && j != i ==> r.peers[j] == st.peers[j])
  {
    hide Prioritized, Selected;
  }

  lemma {:induction false} NotifyChokesDecides(st: Download, n: nat, favs: seq<nat>, w: World)
    requires n <= |st.peers|
    ensures DecidedUpTo(st, NotifyChokes(st, n, favs, w), n, favs)
  {
    hide NotifyChoke, Decided;
    if n > 0 {
      NotifyChokesDecides(st, n - 1, favs, w);
      hide DecidedUpTo;
      DecidedNext(st, NotifyChokes(st, n - 1, favs, w), n - 1, favs, w);
    }
  }

  /** The first `n` peers are decided, and nothing else is touched but the wire. */
  ghost predicate DecidedUpTo(st: Download, r: Download, n: nat, favs: seq<nat>) {
    && n <= |st.peers| == |r.peers|
    && r == st.(peers := r.peers, wire := r.wire)
    && (forall j :: 0 <= j < n ==> Decided(st.peers[j], r.peers[j], j in favs))
    && (forall j :: n <= j < |st.peers| ==> r.peers[j] == st.peers[j])
  }

  lemma DecidedNext(st: Download, before: Download, n: nat, favs: seq<nat>, w: World)
    requires n < |st.peers| && DecidedUpTo(st, before, n, favs)
    ensures DecidedUpTo(st, NotifyChoke(before, n, favs, w), n + 1, favs)
  {
    NotifyChokeDecides(before, n, favs, w);
    hide NotifyChoke, Decided;
    assert before.peers[n] == st.peers[n];
  }

  /** After a round, snubbing or not, a GOOD peer is unchoked if and only if it
      was selected; so at most four are. */
  lemma FavoritesDecide(st: Download, rank: nat -> int, w: World)
    requires ChokeOk(st.peers)
    ensures var r := Favorites(st, rank, w);
            var favs := Selected(st.peers, |st.peers|, rank);
            && (forall j :: 0 <= j < |r.peers| && r.peers[j].state == Good ==> (!r.peers[j].localChoked <==> j in favs))
            && ChokeOk(r.peers)
  {
    var r := Favorites(st, rank, w);
    var favs := Selected(st.peers, |st.peers|, rank);
    NotifyChokesDecides(st, |st.peers|, favs, w);
    hide Selected, NotifyChokes;
    DecidedBounds(st, r, favs);
  }

  lemma DecidedBounds(st: Download, r: Download, favs: seq<nat>)
    requires ChokeOk(st.peers) && DecidedUpTo(st, r, |st.peers|, favs) && |favs| <= DOWNLOADS
    requires forall j :: 0 <= j < |st.peers| && j in favs ==> st.peers[j].state == Good
    ensures forall j :: 0 <= j < |r.peers| && r.peers[j].state == Good ==> (!r.peers[j].localChoked <==> j in favs)
    ensures ChokeOk(r.peers)
  {
    assert favs[..|favs|] == favs;
    forall j | 0 <= j < |r.peers|
      ensures r.peers[j].state == Good ==> (!r.peers[j].localChoked <==> j in favs)
      ensures Connecting(r.peers[j]) ==> r.peers[j].localChoked
    {
      assert Decided(st.peers[j], r.peers[j], j in favs);
    }
    hide Decided;
    UploadsBound(r.peers, Firsts(favs, |favs|));
  }
}
