/** Who is selected when some peers are snubbed: such a newcomer goes in front of
    those without interest only, but once in its place counts as interested. */
module Snubbing {
  import opened RequestRing
  import opened Swarm
  import opened Choking

  /** The newcomer `y` goes in front of `z` where it meets it. */
  predicate StopsAt(peers: seq<Peer>, rank: nat -> int, y: nat, z: nat)
    requires y < |peers| && z < |peers|
  {
    if !peers[y].localSnubbed && peers[y].remoteInterested then !peers[z].remoteInterested || rank(y) > rank(z)
    else !peers[z].remoteInterested && rank(y) > rank(z)
  }

  predicate Below(favs: seq<nat>, n: nat) {
    forall j :: 0 <= j < |favs| ==> favs[j] < n
  }

  /** Where the newcomer goes, from place `k` on. */
  function Place(peers: seq<Peer>, favs: seq<nat>, y: nat, rank: nat -> int, k: nat): (r: nat)
    requires k <= |favs| && y < |peers| && Below(favs, |peers|)
    ensures k <= r <= |favs|
    ensures forall j :: k <= j < r ==> !StopsAt(peers, rank, y, favs[j])
    ensures r < |favs| ==> StopsAt(peers, rank, y, favs[r])
    decreases |favs| - k
  {
    if k == |favs| || StopsAt(peers, rank, y, favs[k]) then k else Place(peers, favs, y, rank, k + 1)
  }

  /** All GOOD peers below `n` in the order in which there would be places. */
  ghost function Everyone(peers: seq<Peer>, n: nat, rank: nat -> int): (all: seq<nat>)
    requires n <= |peers|
    ensures Below(all, n)
  {
    if n == 0 then []
    else
      var all := Everyone(peers, n - 1, rank);
      if peers[n - 1].state != Good then all
      else
        var k := Place(peers, all, n - 1, rank, 0);
        all[..k] + [n - 1] + all[k..]
  }

  // ------------------------------------------------------- the first four of all

  lemma {:induction false} FirstIsPlace(peers: seq<Peer>, favs: seq<nat>, y: nat, rank: nat -> int, k: nat)
    requires k <= |favs| && y < |peers| && Below(favs, |peers|)
    requires !peers[y].localSnubbed && peers[y].remoteInterested
    ensures PlaceFirst(peers, favs, y, rank, k) == Place(peers, favs, y, rank, k)
    decreases |favs| - k
  {
    if k < |favs| && !StopsAt(peers, rank, y, favs[k]) {
      FirstIsPlace(peers, favs, y, rank, k + 1);
    }
  }

  lemma {:induction false} LastIsPlace(peers: seq<Peer>, favs: seq<nat>, y: nat, rank: nat -> int, k: nat)
    requires k <= |favs| && y < |peers| && Below(favs, |peers|)
    requires peers[y].localSnubbed || !peers[y].remoteInterested
    ensures PlaceLast(peers, favs, y, rank, k) == Place(peers, favs, y, rank, k)
    decreases |favs| - k
  {
    if k < |favs| && !StopsAt(peers, rank, y, favs[k]) {
      LastIsPlace(peers, favs, y, rank, k + 1);
    }
  }

  /** Without a place among the interested there is none behind them either. */
  lemma {:induction false} NoLastPlace(peers: seq<Peer>, favs: seq<nat>, y: nat, rank: nat -> int, k: nat)
    requires k <= |favs| && y < |peers| && Below(favs, |peers|)
    requires forall j :: 0 <= j < |favs| ==> peers[favs[j]].remoteInterested
    ensures PlaceLast(peers, favs, y, rank, k) == |favs|
    decreases |favs| - k
  {
    if k < |favs| {
      NoLastPlace(peers, favs, y, rank, k + 1);
    }
  }

  lemma PrioritizedIs(peers: seq<Peer>, favs: seq<nat>, y: nat, rank: nat -> int)
    requires y < |peers| && |favs| <= DOWNLOADS && Below(favs, |peers|)
    ensures var k := Place(peers, favs, y, rank, 0);
            Prioritized(peers, favs, y, rank) == if k < DOWNLOADS then InsertAt(favs, k, y) else favs
  {
    hide InsertAt;
    if !peers[y].localSnubbed && peers[y].remoteInterested {
      FirstIsPlace(peers, favs, y, rank, 0);
      if Place(peers, favs, y, rank, 0) == DOWNLOADS {
        NoLastPlace(peers, favs, y, rank, 0);
      }
    } else {
      LastIsPlace(peers, favs, y, rank, 0);
    }
  }

  ghost function Front(s: seq<nat>): (r: seq<nat>) {
    if |s| <= DOWNLOADS then s else s[..DOWNLOADS]
  }

  lemma FrontInserts(all: seq<nat>, k: nat, y: nat)
    requires k <= |all|
    ensures var longer := all[..k] + [y] + all[k..];
            Front(longer) == if k < DOWNLOADS then InsertAt(Front(all), k, y) else Front(all)
  {
    var longer := all[..k] + [y] + all[k..];
    if k < DOWNLOADS {
      var f := Front(all);
      assert forall j :: 0 <= j < |f| ==> f[j] == all[j];
      InsertAtIs(f, k, y);
      assert |Front(longer)| == |InsertAt(f, k, y)|;
      assert Front(longer) == InsertAt(f, k, y);
    } else {
      assert Front(longer) == Front(all);
    }
  }

  lemma {:induction false} SamePlace(peers: seq<Peer>, all: seq<nat>, y: nat, rank: nat -> int)
    requires y < |peers| && Below(all, |peers|)
    ensures var k, l := Place(peers, all, y, rank, 0), Place(peers, Front(all), y, rank, 0);
            if k < |Front(all)| then l == k else l == |Front(all)|
  {
    var k, f := Place(peers, all, y, rank, 0), Front(all);
    var l := Place(peers, f, y, rank, 0);
    assert forall j :: 0 <= j < |f| ==> f[j] == all[j];
    hide StopsAt, Place;
  }

  lemma FrontOfMore(peers: seq<Peer>, all: seq<nat>, y: nat, rank: nat -> int)
    requires y < |peers| && Below(all, |peers|)
    ensures var k := Place(peers, all, y, rank, 0);
            Prioritized(peers, Front(all), y, rank) == Front(all[..k] + [y] + all[k..])
  {
    hide Prioritized, InsertAt, StopsAt;
    PrioritizedIs(peers, Front(all), y, rank);
    SamePlace(peers, all, y, rank);
    FrontInserts(all, Place(peers, all, y, rank, 0), y);
  }

  /** The favourites are the first four in that order. */
  lemma {:induction false} SelectedIsFront(peers: seq<Peer>, n: nat, rank: nat -> int)
    requires n <= |peers|
    ensures Selected(peers, n, rank) == Front(Everyone(peers, n, rank))
  {
    hide *;
    if n == 0 {
      NobodyYet(peers, rank);
    } else {
      SelectedIsFront(peers, n - 1, rank);
      RoundOnce(peers, n, rank);
    }
  }

  lemma NobodyYet(peers: seq<Peer>, rank: nat -> int)
    ensures Selected(peers, 0, rank) == Front(Everyone(peers, 0, rank))
  {
  }

  lemma RoundOnce(peers: seq<Peer>, n: nat, rank: nat -> int)
    requires 0 < n <= |peers| && Selected(peers, n - 1, rank) == Front(Everyone(peers, n - 1, rank))
    ensures Selected(peers, n, rank) == Front(Everyone(peers, n, rank))
  {
    hide Prioritized, Place, StopsAt, Front;
    if peers[n - 1].state == Good {
      FrontOfMore(peers, Everyone(peers, n - 1, rank), n - 1, rank);
    }
  }

  // ------------------------------------------------------------------ who comes first

  /** `a` comes before `b`: it was there first and is not overtaken, or overtakes
      `b` by going in front of it or of somebody who comes before it. */
  ghost predicate Comes(peers: seq<Peer>, rank: nat -> int, a: nat, b: nat)
    requires a < |peers| && b < |peers| && a != b
    decreases if a < b then b else a, a < b
  {
    if a < b then !Comes(peers, rank, b, a)
    else exists z: nat :: z < a && OvertakesBy(peers, rank, a, b, z)
  }

  ghost predicate OvertakesBy(peers: seq<Peer>, rank: nat -> int, a: nat, b: nat, z: nat)
    requires z < a && b < a < |peers|
    decreases a, false, 0
  {
    peers[z].state == Good && (z == b || Comes(peers, rank, z, b)) && StopsAt(peers, rank, a, z)
  }

  /** Every GOOD peer below `n` once, in order. */
  ghost predicate InOrder(peers: seq<Peer>, n: nat, rank: nat -> int, all: seq<nat>)
    requires n <= |peers|
  {
    && Below(all, n)
    && (forall x :: x in all <==> IsGood(peers, n, x))
    && (forall i, j :: 0 <= i < j < |all| ==> all[i] != all[j] && Comes(peers, rank, all[i], all[j]))
  }

  lemma PassedBy(peers: seq<Peer>, rank: nat -> int, all: seq<nat>, y: nat, k: nat, i: nat)
    requires y < |peers| && InOrder(peers, y, rank, all) && i < k <= |all|
    requires forall j :: 0 <= j < k ==> !StopsAt(peers, rank, y, all[j])
    ensures Comes(peers, rank, all[i], y)
  {
    forall z: nat | z < y && peers[z].state == Good && (z == all[i] || Comes(peers, rank, z, all[i]))
      ensures !StopsAt(peers, rank, y, z)
    {
      assert IsGood(peers, y, z);
      var j :| 0 <= j < |all| && all[j] == z;
      PlaceTells(peers, y, rank, all, j, i);
    }
  }

  lemma PlaceTells(peers: seq<Peer>, n: nat, rank: nat -> int, all: seq<nat>, i: nat, j: nat)
    requires n <= |peers| && InOrder(peers, n, rank, all) && i < |all| && j < |all|
    ensures i != j ==> all[i] != all[j] && (Comes(peers, rank, all[i], all[j]) <==> i < j)
  {
    if i < j {
      assert Comes(peers, rank, all[i], all[j]);
    } else if j < i {
      assert Comes(peers, rank, all[j], all[i]);
      OneWay(peers, rank, all[i], all[j]);
    }
    hide Comes;
  }

  lemma OneWay(peers: seq<Peer>, rank: nat -> int, a: nat, b: nat)
    requires a < |peers| && b < |peers| && a != b
    ensures Comes(peers, rank, a, b) <==> !Comes(peers, rank, b, a)
  {
  }

  lemma Overtaken(peers: seq<Peer>, rank: nat -> int, all: seq<nat>, y: nat, k: nat, i: nat)
    requires y < |peers| && InOrder(peers, y, rank, all) && k <= i < |all|
    requires StopsAt(peers, rank, y, all[k])
    ensures Comes(peers, rank, y, all[i])
  {
    assert IsGood(peers, y, all[k]);
    assert OvertakesBy(peers, rank, y, all[i], all[k]);
  }

  lemma InsertKeepsAll(peers: seq<Peer>, rank: nat -> int, all: seq<nat>, y: nat, k: nat)
    requires y < |peers| && peers[y].state == Good && InOrder(peers, y, rank, all) && k <= |all|
    requires forall i :: 0 <= i < k ==> Comes(peers, rank, all[i], y)
    requires forall i :: k <= i < |all| ==> Comes(peers, rank, y, all[i])
    ensures InOrder(peers, y + 1, rank, all[..k] + [y] + all[k..])
  {
    var r := all[..k] + [y] + all[k..];
    InsertedAt(all, k, y);
    hide Comes;
    forall x
      ensures x in r <==> IsGood(peers, y + 1, x)
    {
      assert x in all <==> IsGood(peers, y, x);
    }
    forall i, j | 0 <= i < j < |r|
      ensures r[i] != r[j] && Comes(peers, rank, r[i], r[j])
    {
      if i == k {
        assert Comes(peers, rank, y, all[j - 1]);
      } else if j == k {
        assert Comes(peers, rank, all[i], y);
      } else {
        var i', j' := if i < k then i else i - 1, if j < k then j else j - 1;
        assert all[i'] != all[j'] && Comes(peers, rank, all[i'], all[j']);
      }
    }
  }

  lemma InsertedAt(all: seq<nat>, k: nat, y: nat)
    requires k <= |all|
    ensures var r := all[..k] + [y] + all[k..];
            && |r| == |all| + 1
            && (forall i :: 0 <= i < |r| ==> r[i] == if i < k then all[i] else if i == k then y else all[i - 1])
            && (forall x :: x in r <==> x == y || x in all)
  {
    assert all == all[..k] + all[k..];
  }

  lemma {:induction false} EveryoneInOrder(peers: seq<Peer>, n: nat, rank: nat -> int)
    requires n <= |peers|
    ensures InOrder(peers, n, rank, Everyone(peers, n, rank))
  {
    if n > 0 {
      var y, all := n - 1, Everyone(peers, n - 1, rank);
      EveryoneInOrder(peers, y, rank);
      if peers[y].state == Good {
        var k := Place(peers, all, y, rank, 0);
        forall i | 0 <= i < k ensures Comes(peers, rank, all[i], y) { PassedBy(peers, rank, all, y, k, i); }
        forall i | k <= i < |all| ensures Comes(peers, rank, y, all[i]) { Overtaken(peers, rank, all, y, k, i); }
        InsertKeepsAll(peers, rank, all, y, k);
      }
      hide Comes;
    }
  }

  ghost function Predecessors(peers: seq<Peer>, rank: nat -> int, x: nat): set<nat>
    requires x < |peers|
  {
    set y: nat | y < |peers| && y != x && peers[y].state == Good && Comes(peers, rank, y, x)
  }

  lemma PlaceIsCount(peers: seq<Peer>, rank: nat -> int, all: seq<nat>, i: nat)
    requires InOrder(peers, |peers|, rank, all) && i < |all|
    ensures |Predecessors(peers, rank, all[i])| == i
  {
    forall y | y in Predecessors(peers, rank, all[i])
      ensures y in all[..i]
    {
      assert IsGood(peers, |peers|, y);
      var j :| 0 <= j < |all| && all[j] == y;
      PlaceTells(peers, |peers|, rank, all, j, i);
      assert all[..i][j] == y;
    }
    forall y | y in all[..i]
      ensures y in Predecessors(peers, rank, all[i])
    {
      var j :| 0 <= j < i && all[j] == y;
      assert IsGood(peers, |peers|, y);
    }
    assert Predecessors(peers, rank, all[i]) == Firsts(all, i);
    PrefixSize(all, i);
  }

  /** Snubbed or not: a GOOD peer is selected if and only if fewer than four GOOD
      peers come before it, and it has the place that many of them leave. */
  lemma SelectionIsOrder(peers: seq<Peer>, rank: nat -> int, x: nat)
    requires x < |peers| && peers[x].state == Good
    ensures var favs, n := Selected(peers, |peers|, rank), |Predecessors(peers, rank, x)|;
            (x in favs <==> n < DOWNLOADS) && (n < DOWNLOADS ==> n < |favs| && favs[n] == x)
  {
    var all := Everyone(peers, |peers|, rank);
    SelectedIsFront(peers, |peers|, rank);
    EveryoneInOrder(peers, |peers|, rank);
    assert IsGood(peers, |peers|, x);
    var i :| 0 <= i < |all| && all[i] == x;
    PlaceIsCount(peers, rank, all, i);
    hide Selected, Everyone, Comes, Predecessors;
    if x in Front(all) {
      var j :| 0 <= j < |Front(all)| && Front(all)[j] == x;
      assert all[j] == x;
    }
  }
}
