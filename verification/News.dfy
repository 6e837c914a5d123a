/** What goes out on the wire when something changes: our choking and our interest,
    finished pieces and requests taken back. */
module News {
  import opened Pieces
  import opened RequestRing
  import opened BitSets
  import opened Swarm
  import opened Choking
  import SwarmSafety

  // ------------------------------------------------------------------- choking

  /** A message for each of the first `n` peers that is choked or not where it was
      otherwise before, in their order. */
  ghost function ChokeNews(was: seq<Peer>, now: seq<Peer>, n: nat): seq<Sent>
    requires n <= |was| == |now|
  {
    if n == 0 then []
    else ChokeNews(was, now, n - 1)
         + if now[n - 1].localChoked == was[n - 1].localChoked then []
           else [Sent(n - 1, was[n - 1].remoteChoked, ChokeMsg(now[n - 1].localChoked))]
  }

  /** One turn of the round: what is told is what is so from then on. */
  ghost predicate Turned(st: Download, i: nat, chosen: bool, w: World, r: Download)
    requires i < |st.peers|
  {
    && |r.peers| == |st.peers|
    && r == st.(peers := st.peers[i := r.peers[i]], wire := r.wire)
    && (var p, q := st.peers[i], r.peers[i];
        && q.localChoked == (!chosen && (p.localChoked || p.state == Good))
        && (if q.localChoked == p.localChoked then q == p && r.wire == st.wire
            else && q == p.(localChoked := !p.localChoked, queue := [], state := if w.fails(|st.wire|) then Error else p.state)
                 && r.wire == st.wire + [Sent(i, p.remoteChoked, ChokeMsg(q.localChoked))]))
  }

  lemma NotifyChokeTurns(st: Download, i: nat, favs: seq<nat>, w: World)
    requires i < |st.peers|
    ensures Turned(st, i, i in favs, w, NotifyChoke(st, i, favs, w))
  {
    var p, on := st.peers[i], i !in favs;
    if p.localChoked == on || (on && p.state != Good) {
      assert st.peers[i := p] == st.peers;
    } else {
      ChokeSends(st, i, on);
      hide SendChoke;
      var told, q := SendChoke(st, i, on), p.(localChoked := on, queue := []);
      assert told.peers[i := q.(state := Error)] == st.peers[i := q.(state := Error)];
    }
  }

  lemma ChokeSends(st: Download, i: nat, on: bool)
    requires i < |st.peers| && st.peers[i].localChoked != on
    ensures var p := st.peers[i];
            SendChoke(st, i, on) == st.(peers := st.peers[i := p.(localChoked := on, queue := [])],
                                        wire := st.wire + [Sent(i, p.remoteChoked, ChokeMsg(on))])
  {
  }

  /** After `n` turns. */
  ghost predicate TurnedUpTo(st: Download, n: nat, favs: seq<nat>, r: Download) {
    && n <= |st.peers| == |r.peers|
    && r == st.(peers := r.peers, wire := st.wire + ChokeNews(st.peers, r.peers, n))
    && (forall j :: 0 <= j < n ==> TurnedPeer(st.peers[j], r.peers[j], j in favs))
    && (forall j :: n <= j < |st.peers| ==> r.peers[j] == st.peers[j])
  }

  ghost predicate TurnedPeer(p: Peer, q: Peer, chosen: bool) {
    && q.localChoked == (!chosen && (p.localChoked || p.state == Good))
    && (q.state == p.state || q.state == Error)
    && (q.localChoked == p.localChoked ==> q == p)
    && q == p.(localChoked := q.localChoked, queue := if q.localChoked == p.localChoked then p.queue else [], state := q.state)
  }

  lemma {:induction false} NewsSame(was: seq<Peer>, a: seq<Peer>, b: seq<Peer>, n: nat)
    requires n <= |was| == |a| == |b| && forall j :: 0 <= j < n ==> a[j] == b[j]
    ensures ChokeNews(was, a, n) == ChokeNews(was, b, n)
  {
    if n > 0 {
      NewsSame(was, a, b, n - 1);
    }
  }

  lemma TurnedMore(st: Download, n: nat, favs: seq<nat>, w: World, m: Download, r: Download)
    requires n < |st.peers| && TurnedUpTo(st, n, favs, m) && Turned(m, n, n in favs, w, r)
    ensures TurnedUpTo(st, n + 1, favs, r)
  {
    assert m.peers[n] == st.peers[n];
    NewsSame(st.peers, m.peers, r.peers, n);
    var news := ChokeNews(st.peers, r.peers, n);
    assert st.wire + news + [] == st.wire + news;
    if r.peers[n].localChoked != st.peers[n].localChoked {
      var last := [Sent(n, st.peers[n].remoteChoked, ChokeMsg(r.peers[n].localChoked))];
      assert st.wire + news + last == st.wire + (news + last);
    }
  }

  lemma {:induction false} NotifyChokesTurn(st: Download, n: nat, favs: seq<nat>, w: World)
    requires n <= |st.peers|
    ensures TurnedUpTo(st, n, favs, NotifyChokes(st, n, favs, w))
  {
    hide *;
    ChokesOnce(st, n, favs, w);
    if n > 0 {
      var m := NotifyChokes(st, n - 1, favs, w);
      NotifyChokesTurn(st, n - 1, favs, w);
      TurnedParts(st, n - 1, favs, m);
      NotifyChokeTurns(m, n - 1, favs, w);
      TurnedMore(st, n - 1, favs, w, m, NotifyChoke(m, n - 1, favs, w));
    }
  }

  lemma ChokesOnce(st: Download, n: nat, favs: seq<nat>, w: World)
    requires n <= |st.peers|
    ensures n == 0 ==> TurnedUpTo(st, n, favs, NotifyChokes(st, n, favs, w))
    ensures n > 0 ==> NotifyChokes(st, n, favs, w) == NotifyChoke(NotifyChokes(st, n - 1, favs, w), n - 1, favs, w)
  {
    hide NotifyChoke;
    assert st.wire + [] == st.wire;
  }

  lemma TurnedParts(st: Download, n: nat, favs: seq<nat>, m: Download)
    requires TurnedUpTo(st, n, favs, m)
    ensures |m.peers| == |st.peers|
  {
  }

  /** A round of favourites tells just those peers whose choke changes, in order, and
      each of them what is so from then on: a peer that has been selected is unchoked,
      and of the others those that are GOOD are choked. */
  lemma RoundTells(st: Download, rank: nat -> int, w: World)
    ensures var r, favs := Favorites(st, rank, w), Selected(st.peers, |st.peers|, rank);
            && |r.peers| == |st.peers|
            && r == st.(peers := r.peers, wire := st.wire + ChokeNews(st.peers, r.peers, |st.peers|))
            && (forall j :: 0 <= j < |st.peers| ==> TurnedPeer(st.peers[j], r.peers[j], j in favs))
  {
    NotifyChokesTurn(st, |st.peers|, Selected(st.peers, |st.peers|, rank), w);
    hide Selected, NotifyChokes, ChokeNews, TurnedPeer;
  }

  /** A request is put into the queue of an unchoked peer for a complete piece that
      the peer lacks; any other one chokes it, and tells it so. */
  lemma RequestAnswered(t: Torrent, st: Download, i: nat, q: Request)
    requires i < |st.peers| && !Outside(t, q.block)
    ensures var r, code := RecvRequest(t, st, i, q).0, RecvRequest(t, st, i, q).1;
            var p := st.peers[i];
            var valid := q.block !in p.blocks && q.block in st.completed;
            var fits := q.length <= 65536 && |p.queue| < 29;
            if p.localChoked then r == st && code == 0
            else if valid then
              && r == st.(peers := st.peers[i := p.(queue := if fits then p.queue + [q] else p.queue)])
              && (code == 0 <==> fits)
            else && code == 0
                 && r == st.(peers := st.peers[i := p.(localChoked := true, queue := [])],
                             wire := st.wire + [Sent(i, p.remoteChoked, ChokeMsg(true))])
  {
    assert st.peers[i := st.peers[i]] == st.peers;
  }

  // ------------------------------------------------------------------ interest

  /** We are interested in a peer when it has a piece that we want and lack.  It is
      told just when that has changed, and what it has changed to. */
  lemma InterestTold(st: Download, i: nat, w: World)
    requires i < |st.peers|
    ensures var r, res := UpdateInterested(st, i, w).0, UpdateInterested(st, i, w).1;
            var p := st.peers[i];
            var wants := exists n :: n in p.blocks && n in st.interested && n !in st.completed;
            && (if wants == p.localInterested then r == st
                else r == st.(peers := st.peers[i := p.(localInterested := wants)],
                              wire := st.wire + [Sent(i, p.remoteChoked, InterestedMsg(wants))]))
            && (res == -1 <==> wants != p.localInterested && w.fails(|st.wire|))
            && (res != -1 ==> res == if wants then 1 else 0)
  {
    var p := st.peers[i];
    assert Wanted(st, p, st.completed) != {} <==>
      exists n :: n in p.blocks && n in st.interested && n !in st.completed by {
      if Wanted(st, p, st.completed) != {} {
        var n :| n in Wanted(st, p, st.completed);
      }
      assert forall n :: n in Wanted(st, p, st.completed) <==> n in p.blocks && n in st.interested && n !in st.completed;
    }
  }

  // ------------------------------------------------- requests back, pieces finished

  ghost function Cancels(i: nat, choking: bool, rs: seq<Request>): (sent: seq<Sent>)
    ensures |sent| == |rs|
  {
    seq(|rs|, m requires 0 <= m < |rs| => Sent(i, choking, CancelMsg(rs[m])))
  }

  ghost predicate SomeFails(w: World, from: nat, n: nat) {
    exists m :: from <= m < from + n && w.fails(m)
  }

  ghost predicate Cancelled(st: Download, i: nat, w: World, r: Download)
    requires i < |st.peers|
  {
    var p := st.peers[i];
    r == st.(peers := st.peers[i := p.(inqueue := [], state := if SomeFails(w, |st.wire|, |p.inqueue|) then Error else p.state)],
             wire := st.wire + Cancels(i, p.remoteChoked, p.inqueue))
  }

  lemma CancelledMore(st: Download, i: nat, w: World, m: Download, r: Download)
    requires i < |st.peers| && st.peers[i].inqueue != []
    requires var p := st.peers[i];
             m == st.(peers := st.peers[i := p.(inqueue := p.inqueue[1..], state := if w.fails(|st.wire|) then Error else p.state)],
                      wire := st.wire + [Sent(i, p.remoteChoked, CancelMsg(p.inqueue[0]))])
    requires Cancelled(m, i, w, r)
    ensures Cancelled(st, i, w, r)
  {
    var p := st.peers[i];
    var first, rest := Sent(i, p.remoteChoked, CancelMsg(p.inqueue[0])), Cancels(i, p.remoteChoked, p.inqueue[1..]);
    SomeFailsMore(w, |st.wire|, |p.inqueue|);
    hide SomeFails;
    assert Cancels(i, p.remoteChoked, p.inqueue) == [first] + rest;
    assert st.wire + [first] + rest == st.wire + ([first] + rest);
    hide Cancels;
  }

  /** Everything a peer has been asked for is taken back, in order; a send that fails
      costs it the connection. */
  lemma {:induction false} CancelsDo(st: Download, i: nat, w: World)
    requires i < |st.peers|
    ensures Cancelled(st, i, w, CancelAll(st, i, w))
    decreases |st.peers[i].inqueue|
  {
    var p := st.peers[i];
    if p.inqueue == [] {
      assert st.wire + [] == st.wire && st.peers[i := p] == st.peers;
    } else {
      var m := CancelOne(st, i, w);
      assert CancelAll(st, i, w) == CancelAll(m, i, w);
      CancelOneDoes(st, i, w);
      hide *;
      CancelsDo(m, i, w);
      CancelledMore(st, i, w, m, CancelAll(m, i, w));
    }
  }

  lemma CancelOneDoes(st: Download, i: nat, w: World)
    requires i < |st.peers| && st.peers[i].inqueue != []
    ensures var p := st.peers[i];
            CancelOne(st, i, w)
            == st.(peers := st.peers[i := p.(inqueue := p.inqueue[1..], state := if w.fails(|st.wire|) then Error else p.state)],
                   wire := st.wire + [Sent(i, p.remoteChoked, CancelMsg(p.inqueue[0]))])
  {
  }

  lemma SomeFailsMore(w: World, from: nat, n: nat)
    requires n > 0
    ensures SomeFails(w, from, n) <==> w.fails(from) || SomeFails(w, from + 1, n - 1)
  {
  }

  /** The peers that have been told of piece `n`, in order. */
  ghost function ToldOf(wire: seq<Sent>, n: nat): seq<nat> {
    if wire == [] then []
    else
      var k := |wire| - 1;
      ToldOf(wire[..k], n) + if wire[k].msg == HaveMsg(n) then [wire[k].peer] else []
  }

  lemma {:induction false} ToldJoins(a: seq<Sent>, b: seq<Sent>, n: nat)
    ensures ToldOf(a + b, n) == ToldOf(a, n) + ToldOf(b, n)
  {
    if b == [] {
      assert a + b == a;
    } else {
      var k := |b| - 1;
      assert (a + b)[..|a| + k] == a + b[..k];
      ToldJoins(a, b[..k], n);
    }
  }

  /** More has been sent, but nothing about finished pieces. */
  ghost predicate NoHave(a: seq<Sent>, b: seq<Sent>) {
    a <= b && forall k :: |a| <= k < |b| ==> !b[k].msg.HaveMsg?
  }

  lemma {:induction false} NoHaveTold(a: seq<Sent>, b: seq<Sent>, n: nat)
    requires NoHave(a, b)
    ensures ToldOf(b, n) == ToldOf(a, n)
    decreases |b|
  {
    if |b| > |a| {
      NoHaveTold(a, b[..|b| - 1], n);
    } else {
      assert a == b;
    }
  }

  lemma {:induction false} AskSaysNoHave(t: Torrent, st: Download, i: nat, w: World, window: nat, res: int)
    requires i < |st.peers| && window <= REQMAX
    ensures var r := Ask(t, st, i, w, window, res).0;
            NoHave(st.wire, r.wire) && SameStates(st, r, i)
    decreases window - |st.peers[i].inqueue|
  {
    var p := st.peers[i];
    if |p.inqueue| < window && p.current != NoPiece && Find(st.partial, p.current.number) < |st.partial| {
      var piece := st.partial[Find(st.partial, p.current.number)];
      hide PieceLen, NextRequest, Find, WithNext;
      AskSaysNoHave(t, AskOne(t, st, i, piece), i, w, window, if w.fails(|st.wire|) then -1 else 0);
    }
  }

  /** Only peer `i` may change, and not the state of its connection. */
  ghost predicate SameStates(st: Download, r: Download, i: nat)
    requires i < |st.peers|
  {
    && |r.peers| == |st.peers| && r.peers[i].state == st.peers[i].state
    && forall j :: 0 <= j < |st.peers| && j != i ==> r.peers[j] == st.peers[j]
  }

  lemma AssignSaysNothing(t: Torrent, st: Download, i: nat, w: World)
    requires i < |st.peers|
    ensures var r := AssignBlock(t, st, i, w); r.wire == st.wire && SameStates(st, r, i)
  {
    forall m: Download, n: nat | m.wire == st.wire && m.peers == st.peers
      ensures Claim(m, i, n).wire == st.wire && SameStates(st, Claim(m, i, n), i)
    {
    }
    hide IdlePartial, SharedPartial, OneAtATime, Wanted, Find, NewPartial, Claim, SameStates;
    assert SameStates(st, st, i) by { SameAsBefore(st, i); }
  }

  lemma SameAsBefore(st: Download, i: nat)
    requires i < |st.peers|
    ensures SameStates(st, st, i)
  {
  }

  lemma SendRequestSaysNoHave(t: Torrent, st: Download, i: nat, w: World)
    requires i < |st.peers|
    ensures var r := SendRequest(t, st, i, w).0; NoHave(st.wire, r.wire) && SameStates(st, r, i)
  {
    var ready := if st.peers[i].current == NoPiece then AssignBlock(t, st, i, w) else st;
    AssignSaysNothing(t, st, i, w);
    hide AssignBlock, Ask, Window;
    if ready.peers[i].current != NoPiece {
      AskSaysNoHave(t, ready, i, w, Window(w.rate(i, |st.wire|)), 0);
      hide NoHave, UpdateInterested;
    } else {
      InterestSaysNoHave(ready, i, w);
      hide NoHave, UpdateInterested;
    }
  }

  lemma InterestSaysNoHave(st: Download, i: nat, w: World)
    requires i < |st.peers|
    ensures var r := UpdateInterested(st, i, w).0; NoHave(st.wire, r.wire) && SameStates(st, r, i)
  {
    InterestTold(st, i, w);
    hide UpdateInterested;
  }

  /** One turn of telling of piece `n`: a peer that is still GOOD is told, and nobody
      else hears of any piece. */
  ghost predicate ToldOne(st: Download, i: nat, n: nat, r: Download)
    requires i < |st.peers|
  {
    && |r.peers| == |st.peers| && (forall j :: 0 <= j < |st.peers| && j != i ==> r.peers[j] == st.peers[j])
    && (r.peers[i].state == st.peers[i].state || r.peers[i].state == Error)
    && (if ToldOf(r.wire, n) == ToldOf(st.wire, n) + [i] then st.peers[i].state == Good
        else ToldOf(r.wire, n) == ToldOf(st.wire, n) && r.peers[i].state != Good)
  }

  lemma NotifyOneTells(t: Torrent, st: Download, i: nat, n: nat, w: World)
    requires i < |st.peers|
    ensures ToldOne(st, i, n, NotifyOne(t, st, i, n, w))
  {
    hide *;
    MovedSaysNoHave(t, st, i, n, w);
    NotifyOneIs(t, st, i, n, w);
    HaveSends(st, i, n, SwarmSafety.Moved(t, st, i, n, w), NotifyOne(t, st, i, n, w));
  }

  lemma HaveSends(st: Download, i: nat, n: nat, moved: Download, r: Download)
    requires i < |st.peers| == |moved.peers| && forall j :: 0 <= j < |st.peers| && j != i ==> moved.peers[j] == st.peers[j]
    requires moved.peers[i].state == st.peers[i].state || moved.peers[i].state == Error
    requires ToldOf(moved.wire, n) == ToldOf(st.wire, n)
    requires var p := moved.peers[i];
             if p.state != Good then r == moved
             else && |r.peers| == |st.peers| && r.peers == moved.peers[i := r.peers[i]]
                  && (r.peers[i].state == Good || r.peers[i].state == Error)
                  && r.wire == moved.wire + [Sent(i, p.remoteChoked, HaveMsg(n))]
    ensures ToldOne(st, i, n, r)
  {
    var have := [Sent(i, moved.peers[i].remoteChoked, HaveMsg(n))];
    ToldJoins(moved.wire, have, n);
    HaveIsTold(have, n);
    hide ToldOf;
    assert ToldOf(st.wire, n) + [i] != ToldOf(st.wire, n);
  }

  lemma NotifyOneIs(t: Torrent, st: Download, i: nat, n: nat, w: World)
    requires i < |st.peers|
    ensures var moved := SwarmSafety.Moved(t, st, i, n, w);
            var p := moved.peers[i];
            NotifyOne(t, st, i, n, w)
            == if p.state != Good then moved
               else moved.(peers := moved.peers[i := if w.fails(|moved.wire|) then p.(state := Error) else p],
                           wire := moved.wire + [Sent(i, p.remoteChoked, HaveMsg(n))])
  {
    hide CancelAll, SendRequest;
    var moved := SwarmSafety.Moved(t, st, i, n, w);
    assert moved.peers[i := moved.peers[i]] == moved.peers;
  }

  lemma MovedSaysNoHave(t: Torrent, st: Download, i: nat, n: nat, w: World)
    requires i < |st.peers|
    ensures var r := SwarmSafety.Moved(t, st, i, n, w);
            && |r.peers| == |st.peers| && (forall j :: 0 <= j < |st.peers| && j != i ==> r.peers[j] == st.peers[j])
            && (r.peers[i].state == st.peers[i].state || r.peers[i].state == Error)
            && ToldOf(r.wire, n) == ToldOf(st.wire, n)
  {
    var p := st.peers[i];
    if p.current == Piece(n) {
      var off := SetPeer(st, i, p.(current := NoPiece));
      var freed := CancelAll(off, i, w);
      CancelsDo(off, i, w);
      CancelsSayNoHave(off, i, w);
      SendRequestSaysNoHave(t, freed, i, w);
      NoHaveTold(off.wire, freed.wire, n);
      NoHaveTold(freed.wire, SendRequest(t, freed, i, w).0.wire, n);
      hide CancelAll, SendRequest, NoHave, ToldOf, Cancels, SomeFails;
    }
  }

  lemma HaveIsTold(have: seq<Sent>, n: nat)
    requires |have| == 1 && have[0].msg == HaveMsg(n)
    ensures ToldOf(have, n) == [have[0].peer]
  {
    assert have[..0] == [];
  }

  lemma CancelsSayNoHave(st: Download, i: nat, w: World)
    requires i < |st.peers|
    ensures NoHave(st.wire, CancelAll(st, i, w).wire)
  {
    CancelsDo(st, i, w);
    hide CancelAll;
  }

  /** The peers `js`, in increasing order, are told of piece `n`: all that are GOOD in
      the end, and none that was not GOOD before. */
  ghost predicate ToldAll(st: Download, from: nat, n: nat, js: seq<nat>, r: Download) {
    && |r.peers| == |st.peers| && ToldOf(r.wire, n) == ToldOf(st.wire, n) + js
    && Rising(js, from)
    && (forall j :: j in js ==> j < |st.peers| && st.peers[j].state == Good)
    && (forall j :: from <= j < |st.peers| && r.peers[j].state == Good ==> j in js)
    && (forall j :: 0 <= j < from && j < |st.peers| ==> r.peers[j] == st.peers[j])
  }

  /** Increasing, from `from` on. */
  ghost predicate Rising(js: seq<nat>, from: nat) {
    && (forall j :: j in js ==> from <= j)
    && (forall l, m :: 0 <= l < m < |js| ==> js[l] < js[m])
  }

  lemma RisingMore(i: nat, js: seq<nat>)
    requires Rising(js, i + 1)
    ensures Rising(js, i) && Rising([i] + js, i)
    ensures forall j :: j in [i] + js <==> j == i || j in js
  {
    var all := [i] + js;
    assert all[0] == i;
    forall l | 0 < l < |all| ensures all[l] == js[l - 1] && i < all[l] {
      assert js[l - 1] in js;
    }
  }

  lemma ToldMore(st: Download, i: nat, n: nat, m: Download, js: seq<nat>, r: Download) returns (all: seq<nat>)
    requires i < |st.peers| && ToldOne(st, i, n, m) && ToldAll(m, i + 1, n, js, r)
    ensures ToldAll(st, i, n, all, r)
  {
    hide ToldOf, Rising;
    RisingMore(i, js);
    all := if ToldOf(m.wire, n) == ToldOf(st.wire, n) + [i] then [i] + js else js;
    assert ToldOf(st.wire, n) + [i] + js == ToldOf(st.wire, n) + ([i] + js);
    assert r.peers[i] == m.peers[i];
  }

  /** When a piece is finished every peer that is still connected then has been told
      of it once, in the order of the list. */
  lemma {:induction false} NotifyTells(t: Torrent, st: Download, i: nat, n: nat, w: World) returns (js: seq<nat>)
    requires i <= |st.peers|
    ensures ToldAll(st, i, n, js, Notify(t, st, i, n, w))
    decreases |st.peers| - i
  {
    if i == |st.peers| {
      js := [];
      assert ToldOf(st.wire, n) + [] == ToldOf(st.wire, n);
    } else {
      var m := NotifyOne(t, st, i, n, w);
      assert Notify(t, st, i, n, w) == Notify(t, m, i + 1, n, w);
      hide *;
      NotifyOneTells(t, st, i, n, w);
      js := NotifyTells(t, m, i + 1, n, w);
      js := ToldMore(st, i, n, m, js, Notify(t, m, i + 1, n, w));
    }
  }
}
