/** An iterative Kademlia lookup: a frontier of candidates, the queries in
    flight, burned identifiers and hosts, and the distance of the eighth closest
    responder.  Maps keyed by a distance are keyed by the number it denotes,
    which orders them as `memcmp` does (KadId.OrderIsNumeric) and names the
    identifier (KadId.DistNamesId). */
module Lookups {
  import opened KadId
  import opened Buckets

  const CONCURRENT_REQUEST: nat := 3
  const REPLY_SECONDS: int := 5

  /** A packet that has arrived, decoded: the replying node's identifier if it
      is present and 20 bytes long, and its list of nodes. */
  datatype Packet = Packet(size: nat, id: IdField, host: nat, port: nat, nodes: seq<KItem>)
  datatype IdField = NoId | HasId(id: Id)

  /** `Done` carries the number of replies; `Sleep` the time to resume. */
  datatype Outcome = Done(replies: nat) | Sleep(until: int)

  /** The lookup's fields, and its history: `learned` lists every candidate in
      the order in which it was heard of, `joined` the places in that list of
      those that joined the frontier, `sent` the queries, `responders` the
      distances of the nodes that answered. */
  datatype Lookup = Lookup(
    target: Id,
    state: nat, concurrency: int, lastFinding: nat, summary: nat, lastUpdate: int,
    trim: bool, ended: nat,
    qfind: map<nat, KItem>, outqueue: map<nat, KItem>,
    outedIds: set<nat>, outedHosts: set<nat>, mapined: set<nat>,
    learned: seq<KItem>, joined: set<nat>, sent: seq<KItem>, responders: set<nat>)

  // ------------------------------------------------------------------- the steps

  function Put(m: map<nat, KItem>, d: nat, item: KItem): map<nat, KItem> {
    if d in m then m else m[d := item]
  }

  /** Tries the candidate just heard of: identifier and host must both be new. */
  function Burn(st: Lookup, item: KItem): Lookup
    requires st.learned != []
  {
    var d := Dist(item.kadid, st.target);
    if d in st.outedIds then st
    else if item.host in st.outedHosts then st.(outedIds := st.outedIds + {d})
    else st.(outedIds := st.outedIds + {d}, outedHosts := st.outedHosts + {item.host},
                 qfind := Put(st.qfind, d, item), joined := st.joined + {|st.learned| - 1})
  }

  /** Hears of a candidate; one beyond the bound is not even burned. */
  function Learn(st: Lookup, item: KItem): Lookup {
    var heard := st.(learned := st.learned + [item]);
    if st.trim && st.ended < Dist(item.kadid, st.target) then heard else Burn(heard, item)
  }

  function LearnAll(st: Lookup, items: seq<KItem>): Lookup {
    if items == [] then st else Learn(LearnAll(st, items[..|items| - 1]), items[|items| - 1])
  }

  predicate IsMax(s: set<nat>, d: nat) {
    d in s && forall x :: x in s ==> x <= d
  }

  predicate IsMin(s: set<nat>, d: nat) {
    d in s && forall x :: x in s ==> d <= x
  }

  lemma {:induction false} HasExtremes(s: set<nat>)
    requires s != {}
    ensures exists d :: IsMax(s, d)
    ensures exists d :: IsMin(s, d)
  {
    var x :| x in s;
    if s == {x} {
      assert IsMax(s, x) && IsMin(s, x);
    } else {
      HasExtremes(s - {x});
      var hi :| IsMax(s - {x}, hi);
      var lo :| IsMin(s - {x}, lo);
      assert forall y :: y in s ==> y == x || y in s - {x};
      assert IsMax(s, if x > hi then x else hi);
      assert IsMin(s, if x < lo then x else lo);
    }
  }

  ghost function Max(s: set<nat>): (d: nat)
    requires s != {}
    ensures IsMax(s, d)
  {
    HasExtremes(s);
    var d :| IsMax(s, d);
    d
  }

  ghost function Min(s: set<nat>): (d: nat)
    requires s != {}
    ensures IsMin(s, d)
  {
    HasExtremes(s);
    var d :| IsMin(s, d);
    d
  }

  /** The responders kept after `d` answers: never more than eight. */
  ghost function Kept(m: set<nat>, d: nat): set<nat> {
    var n := m + {d};
    if |n| > K then n - {Max(n)} else n
  }

  ghost function Responded(st: Lookup, id: Id): Lookup {
    var d := Dist(id, st.target);
    var kept := Kept(st.mapined, d);
    var full := |kept| == K;
    st.(lastFinding := st.lastFinding + 1,
        outqueue := st.outqueue - {d},
        mapined := kept,
        ended := if full then Max(kept) else st.ended,
        trim := st.trim || full,
        responders := st.responders + {d})
  }

  ghost function Expanded(st: Lookup, p: Packet): Lookup {
    var counted := st.(summary := st.summary + 1);
    match p.id
    case NoId => counted
    case HasId(id) => LearnAll(Responded(counted, id), p.nodes)
  }

  /** Reads replies up to the first empty packet. */
  ghost function Drained(st: Lookup, inbox: seq<Packet>): (Lookup, seq<Packet>)
    decreases |inbox|
  {
    if inbox == [] then (st, [])
    else if inbox[0].size == 0 then (st, inbox[1..])
    else
      var next := Expanded(st, inbox[0]);
      Drained(next.(concurrency := next.concurrency - 1), inbox[1..])
  }

  /** Nothing left that is worth asking. */
  ghost predicate Exhausted(st: Lookup) {
    st.qfind == map[] || (st.trim && st.ended < Min(st.qfind.Keys))
  }

  ghost function Asked(st: Lookup, now: int): Lookup
    requires st.qfind != map[]
  {
    var d := Min(st.qfind.Keys);
    st.(outqueue := Put(st.outqueue, d, st.qfind[d]),
        qfind := st.qfind - {d},
        sent := st.sent + [st.qfind[d]],
        lastUpdate := now,
        lastFinding := st.lastFinding + 1,
        concurrency := st.concurrency + 1)
  }

  ghost function Filled(st: Lookup, now: int): Lookup
    decreases |st.qfind|
  {
    if st.concurrency >= CONCURRENT_REQUEST || Exhausted(st) then st
    else
      var d := Min(st.qfind.Keys);
      assert |(st.qfind - {d}).Keys| < |st.qfind.Keys| by {
        assert (st.qfind - {d}).Keys == st.qfind.Keys - {d};
      }
      Filled(Asked(st, now), now)
  }

  /** Silent nodes are given up five seconds after the last query. */
  function GiveUp(st: Lookup, tnow: int): Lookup {
    if st.lastUpdate + REPLY_SECONDS <= tnow then st.(outqueue := map[], concurrency := 0) else st
  }

  /** The body of `vcall` from a given state on. */
  ghost function Called(st: Lookup, inbox: seq<Packet>, phase: nat, now: int, tnow: int): (Lookup, seq<Packet>, Outcome)
    requires phase <= 2
    decreases |inbox|, |st.qfind|, st.lastFinding, 2 - phase
  {
    var at := st.(state := phase);
    if phase == 0 then Called(at, inbox, 1, now, tnow)
    else if phase == 1 then
      FillShrinks(at, now);
      var filled := Filled(at, now);
      if filled.concurrency == 0 then (filled, inbox, Done(filled.summary))
      else Called(filled, inbox, 2, now, tnow)
    else
      DrainConsumes(at, inbox);
      var (drained, rest) := Drained(at, inbox);
      var w := GiveUp(drained, tnow);
      if w.concurrency < CONCURRENT_REQUEST && w.lastFinding > 0 then
        Called(w.(lastFinding := 0), rest, 0, now, tnow)
      else if w.concurrency > 0 then (w, rest, Sleep(w.lastUpdate + REPLY_SECONDS))
      else (w, rest, Done(w.summary))
  }

  lemma {:induction false} FillShrinks(st: Lookup, now: int)
    ensures var r := Filled(st, now);
            r == st || |r.qfind| < |st.qfind|
    decreases |st.qfind|
  {
    if !(st.concurrency >= CONCURRENT_REQUEST || Exhausted(st)) {
      var d := Min(st.qfind.Keys);
      assert (st.qfind - {d}).Keys == st.qfind.Keys - {d};
      assert |(st.qfind - {d}).Keys| < |st.qfind.Keys|;
      FillShrinks(Asked(st, now), now);
    }
  }

  lemma {:induction false} DrainConsumes(st: Lookup, inbox: seq<Packet>)
    ensures var (r, rest) := Drained(st, inbox);
            (inbox == [] && r == st && rest == []) || |rest| < |inbox|
    decreases |inbox|
  {
    if inbox != [] && inbox[0].size != 0 {
      var next := Expanded(st, inbox[0]);
      DrainConsumes(next.(concurrency := next.concurrency - 1), inbox[1..]);
    }
  }

  // --------------------------------------------------------------- the invariant

  /** `m` is the min(8, |r|) smallest members of `r`. */
  ghost predicate IsClosest(m: set<nat>, r: set<nat>) {
    && m <= r
    && |m| == (if |r| < K then |r| else K)
    && forall x, y :: x in r && x !in m && y in m ==> y <= x
  }

  ghost predicate BoundInv(st: Lookup) {
    && IsClosest(st.mapined, st.responders)
    && (st.trim <==> |st.mapined| == K)
    && (st.trim ==> IsMax(st.mapined, st.ended))
  }

  ghost predicate Known(st: Lookup, item: KItem) {
    item in st.learned && Dist(item.kadid, st.target) in st.outedIds && item.host in st.outedHosts
  }

  /** No identifier and no host is asked twice: queries made and candidates
      waiting are all different. */
  ghost predicate OnceInv(st: Lookup) {
    && (forall d :: d in st.qfind ==> Dist(st.qfind[d].kadid, st.target) == d && Known(st, st.qfind[d]))
    && (forall d, e :: d in st.qfind && e in st.qfind && d != e ==> st.qfind[d].host != st.qfind[e].host)
    && (forall i :: 0 <= i < |st.sent| ==> Known(st, st.sent[i]))
    && (forall i, j :: 0 <= i < j < |st.sent| ==>
          st.sent[i].kadid != st.sent[j].kadid && st.sent[i].host != st.sent[j].host)
    && (forall i, d :: 0 <= i < |st.sent| && d in st.qfind ==>
          Dist(st.sent[i].kadid, st.target) != d && st.sent[i].host != st.qfind[d].host)
  }

  ghost predicate HeardId(st: Lookup, k: nat, d: nat)
    requires k <= |st.learned|
  {
    exists j :: 0 <= j < k && Dist(st.learned[j].kadid, st.target) == d
  }

  /** Only candidates that join the frontier use up their host. */
  ghost predicate HeardHost(st: Lookup, k: nat, host: nat)
    requires k <= |st.learned|
  {
    exists j :: 0 <= j < k && j in st.joined && st.learned[j].host == host
  }

  /** An earlier candidate had the identifier of candidate `k`, or used up its host. */
  ghost predicate UsedEarlier(st: Lookup, k: nat)
    requires k < |st.learned|
  {
    HeardId(st, k, Dist(st.learned[k].kadid, st.target)) || HeardHost(st, k, st.learned[k].host)
  }

  ghost predicate Waiting(st: Lookup, item: KItem) {
    var d := Dist(item.kadid, st.target);
    d in st.qfind && st.qfind[d] == item
  }

  ghost predicate Accounted(st: Lookup, k: nat)
    requires k < |st.learned|
  {
    var item := st.learned[k];
    || (st.trim && st.ended < Dist(item.kadid, st.target))
    || k in st.joined
    || UsedEarlier(st, k)
  }

  ghost predicate CoverInv(st: Lookup) {
    && (forall k :: 0 <= k < |st.learned| ==> Accounted(st, k))
    && (forall k :: k in st.joined ==> k < |st.learned| && (Waiting(st, st.learned[k]) || st.learned[k] in st.sent))
    && (forall d :: d in st.outedIds ==> HeardId(st, |st.learned|, d))
    && (forall h :: h in st.outedHosts ==> HeardHost(st, |st.learned|, h))
  }

  ghost predicate Inv(st: Lookup) {
    && BoundInv(st) && OnceInv(st) && CoverInv(st)
    && st.concurrency <= CONCURRENT_REQUEST
    && st.state <= 2
    && (st.state < 2 ==> st.concurrency < CONCURRENT_REQUEST)
    && (st.state == 2 && st.lastFinding == 0 ==> Exhausted(st))
  }

  /** What a run may do between two moments: history only grows, and the bound
      never moves outwards. */
  ghost predicate Later(a: Lookup, b: Lookup) {
    && a.target == b.target
    && a.learned <= b.learned && a.joined <= b.joined && a.sent <= b.sent && a.responders <= b.responders
    && a.outedIds <= b.outedIds && a.outedHosts <= b.outedHosts
    && (a.trim ==> b.trim && b.ended <= a.ended)
  }

  lemma {:induction false} SubsetSmaller(a: set<nat>, b: set<nat>)
    requires a <= b
    ensures |a| <= |b|
    ensures |a| == |b| ==> a == b
  {
    if a != {} {
      var x :| x in a;
      SubsetSmaller(a - {x}, b - {x});
    }
  }

  lemma KeptIsClosest(m: set<nat>, r: set<nat>, d: nat)
    requires IsClosest(m, r)
    ensures IsClosest(Kept(m, d), r + {d})
    ensures |m| == K ==> |Kept(m, d)| == K && Max(Kept(m, d)) <= Max(m)
  {
    var n := m + {d};
    var kept := Kept(m, d);
    if d in r {
      assert r + {d} == r;
    }
    if |r| < K {
      SubsetSmaller(m, r);
    } else if d in m {
      assert n == m;
    } else {
      assert |n| == K + 1;
      assert |kept| == K;
      if d in r {
        assert Max(n) == d;
        assert kept == m;
      }
      SubsetSmaller(m, r);
    }
  }

  lemma RespondKeeps(st: Lookup, id: Id)
    requires BoundInv(st) && OnceInv(st) && CoverInv(st)
    ensures var r := Responded(st, id);
            BoundInv(r) && OnceInv(r) && CoverInv(r) && Later(st, r)
  {
    hide Dist;
    var d := Dist(id, st.target);
    KeptIsClosest(st.mapined, st.responders, d);
    var r := Responded(st, id);
    forall k | 0 <= k < |st.learned|
      ensures Accounted(r, k)
    {
      assert Accounted(st, k);
      assert UsedEarlier(st, k) ==> UsedEarlier(r, k);
    }
    forall e | e in r.outedIds
      ensures HeardId(r, |r.learned|, e)
    {
      assert HeardId(st, |st.learned|, e);
    }
    forall h | h in r.outedHosts
      ensures HeardHost(r, |r.learned|, h)
    {
      assert HeardHost(st, |st.learned|, h);
    }
    forall e | e in r.qfind ensures Known(r, r.qfind[e]) { assert Known(st, st.qfind[e]); }
    forall i | 0 <= i < |r.sent| ensures Known(r, r.sent[i]) { assert Known(st, st.sent[i]); }
  }

  /** The indices of a longer history see what those of a shorter one saw. */
  lemma HeardMore(a: Lookup, b: Lookup, k: nat)
    requires a.target == b.target && a.learned <= b.learned && a.joined <= b.joined && k <= |a.learned|
    ensures forall d :: HeardId(a, k, d) ==> HeardId(b, k, d)
    ensures forall h :: HeardHost(a, k, h) ==> HeardHost(b, k, h)
    ensures forall d :: HeardId(b, k, d) ==> HeardId(b, |b.learned|, d)
    ensures forall h :: HeardHost(b, k, h) ==> HeardHost(b, |b.learned|, h)
    ensures k < |a.learned| && UsedEarlier(a, k) ==> UsedEarlier(b, k)
  {
  }

  /** Candidates that wait go on waiting or are asked. */
  ghost predicate Carries(a: Lookup, b: Lookup) {
    && Later(a, b)
    && forall x :: Waiting(a, x) ==> Waiting(b, x) || x in b.sent
  }

  lemma StaysAccounted(a: Lookup, b: Lookup, k: nat)
    requires Carries(a, b) && k < |a.learned| && Accounted(a, k)
    ensures k < |b.learned| && Accounted(b, k)
  {
    hide Dist, UsedEarlier, Waiting;
    HeardMore(a, b, k);
    var item := a.learned[k];
    assert b.learned[k] == item;
    if item in a.sent {
      var i :| 0 <= i < |a.sent| && a.sent[i] == item;
      assert b.sent[i] == item;
    }
  }

  lemma LearnCarries(st: Lookup, item: KItem)
    requires OnceInv(st)
    ensures Carries(st, Learn(st, item))
  {
    hide Dist;
  }

  lemma LearnCovers(st: Lookup, item: KItem)
    requires OnceInv(st) && CoverInv(st)
    ensures CoverInv(Learn(st, item))
  {
    hide Dist, Accounted, HeardId, HeardHost, OnceInv;
    LearnCarries(st, item);
    var r := Learn(st, item);
    var n := |st.learned|;
    assert r.learned[..n] == st.learned && r.learned[n] == item;
    forall k | 0 <= k < n
      ensures Accounted(r, k)
    {
      StaysAccounted(st, r, k);
    }
    HeardMore(st, r, n);
    HeardLast(r);
    LearnAccounts(st, item);
    LearnJoins(st, item);
  }

  /** Whoever has joined waits or was asked, the newcomer included. */
  lemma LearnJoins(st: Lookup, item: KItem)
    requires OnceInv(st) && CoverInv(st)
    ensures var r := Learn(st, item);
            && (forall k :: k in r.joined ==> k < |r.learned| && (Waiting(r, r.learned[k]) || r.learned[k] in r.sent))
            && (r.outedHosts == st.outedHosts || (r.outedHosts == st.outedHosts + {item.host} && |st.learned| in r.joined))
  {
    hide Dist, Accounted, HeardId, HeardHost;
    var r := Learn(st, item);
    var d := Dist(item.kadid, st.target);
    LearnCarries(st, item);
    assert d in st.qfind ==> Known(st, st.qfind[d]);
    forall k | k in st.joined
      ensures k < |r.learned| && (Waiting(r, r.learned[k]) || r.learned[k] in r.sent)
    {
      assert r.learned[k] == st.learned[k];
      assert Waiting(st, st.learned[k]) || st.learned[k] in st.sent;
    }
  }

  lemma HeardLast(r: Lookup)
    requires r.learned != []
    ensures var item := r.learned[|r.learned| - 1];
            && HeardId(r, |r.learned|, Dist(item.kadid, r.target))
            && (|r.learned| - 1 in r.joined ==> HeardHost(r, |r.learned|, item.host))
  {
    hide Dist;
  }

  lemma LearnAccounts(st: Lookup, item: KItem)
    requires OnceInv(st) && CoverInv(st)
    ensures Accounted(Learn(st, item), |st.learned|)
  {
    hide Dist, HeardId, HeardHost;
    var r := Learn(st, item);
    var n := |st.learned|;
    var d := Dist(item.kadid, st.target);
    assert r.learned[n] == item;
    HeardMore(st, r, n);
    assert d in st.outedIds ==> HeardId(r, n, d);
    assert item.host in st.outedHosts ==> HeardHost(r, n, item.host);
    assert d in st.qfind ==> Known(st, st.qfind[d]);
  }

  /** The burned sets and the history may grow. */
  lemma OnceGrows(st: Lookup, r: Lookup)
    requires OnceInv(st)
    requires st.learned <= r.learned && st.outedIds <= r.outedIds && st.outedHosts <= r.outedHosts
    requires r.target == st.target && r.qfind == st.qfind && r.sent == st.sent
    ensures OnceInv(r)
  {
    hide Dist;
    assert forall x :: x in st.learned ==> x in r.learned;
    assert forall e :: e in st.qfind ==> Known(st, st.qfind[e]);
    assert forall i :: 0 <= i < |st.sent| ==> Known(st, st.sent[i]);
  }

  /** A candidate whose identifier and host are unused may join the frontier. */
  lemma OnceJoins(st: Lookup, d: nat, item: KItem)
    requires OnceInv(st) && Known(st, item) && d == Dist(item.kadid, st.target) && d !in st.qfind
    requires forall e :: e in st.qfind ==> st.qfind[e].host != item.host
    requires forall i :: 0 <= i < |st.sent| ==>
               Dist(st.sent[i].kadid, st.target) != d && st.sent[i].host != item.host
    ensures OnceInv(st.(qfind := st.qfind[d := item]))
  {
    hide Dist;
    var r := st.(qfind := st.qfind[d := item]);
    assert forall x :: Known(st, x) <==> Known(r, x);
  }

  lemma LearnOnce(st: Lookup, item: KItem)
    requires OnceInv(st)
    ensures OnceInv(Learn(st, item))
  {
    hide Dist;
    var r := Learn(st, item);
    var d := Dist(item.kadid, st.target);
    var grown := r.(qfind := st.qfind);
    OnceGrows(st, grown);
    if r.qfind != st.qfind {
      assert forall e :: e in st.qfind ==> Known(st, st.qfind[e]);
      assert forall i :: 0 <= i < |st.sent| ==> Known(st, st.sent[i]);
      assert item in grown.learned;
      OnceJoins(grown, d, item);
      assert r == grown.(qfind := grown.qfind[d := item]);
    } else {
      assert r == grown;
    }
  }

  lemma LearnKeeps(st: Lookup, item: KItem)
    requires BoundInv(st) && OnceInv(st) && CoverInv(st)
    ensures var r := Learn(st, item);
            BoundInv(r) && OnceInv(r) && CoverInv(r) && Later(st, r)
  {
    hide Dist;
    LearnCovers(st, item);
    LearnOnce(st, item);
  }

  lemma {:induction false} LearnAllKeeps(st: Lookup, items: seq<KItem>)
    requires BoundInv(st) && OnceInv(st) && CoverInv(st)
    ensures var r := LearnAll(st, items);
            && BoundInv(r) && OnceInv(r) && CoverInv(r) && Later(st, r)
            && r.state == st.state && r.concurrency == st.concurrency && r.lastFinding == st.lastFinding
            && r.mapined == st.mapined
  {
    hide Dist, BoundInv, OnceInv, CoverInv;
    if items != [] {
      LearnAllKeeps(st, items[..|items| - 1]);
      LearnKeeps(LearnAll(st, items[..|items| - 1]), items[|items| - 1]);
    }
  }

  /** A reply that names no node changes only the count of replies; any other
      one puts the search on again. */
  lemma ExpandKeeps(st: Lookup, p: Packet)
    requires BoundInv(st) && OnceInv(st) && CoverInv(st)
    ensures var r := Expanded(st, p);
            && BoundInv(r) && OnceInv(r) && CoverInv(r) && Later(st, r)
            && r.state == st.state && r.concurrency == st.concurrency
            && (r.lastFinding == 0 ==> r == st.(summary := st.summary + 1))
  {
    hide Dist, BoundInv, OnceInv, CoverInv, Kept, LearnAll;
    var counted := st.(summary := st.summary + 1);
    SameHistory(st, counted);
    if p.id.HasId? {
      RespondKeeps(counted, p.id.id);
      LearnAllKeeps(Responded(counted, p.id.id), p.nodes);
    }
  }

  /** The invariants look only at the frontier, the burned sets, the bound and
      the history. */
  lemma SameHistory(a: Lookup, b: Lookup)
    requires BoundInv(a) && OnceInv(a) && CoverInv(a)
    requires b == a.(state := b.state, concurrency := b.concurrency, lastFinding := b.lastFinding,
                     summary := b.summary, lastUpdate := b.lastUpdate, outqueue := b.outqueue)
    ensures BoundInv(b) && OnceInv(b) && CoverInv(b)
    ensures Exhausted(a) <==> Exhausted(b)
  {
    hide Dist;
    assert forall x :: Known(a, x) ==> Known(b, x);
    forall k | 0 <= k < |b.learned|
      ensures Accounted(b, k)
    {
      HeardMore(a, b, k);
      assert Accounted(a, k);
    }
    HeardMore(a, b, |a.learned|);
  }

  lemma {:induction false} DrainKeeps(st: Lookup, inbox: seq<Packet>)
    requires BoundInv(st) && OnceInv(st) && CoverInv(st)
    ensures var (r, rest) := Drained(st, inbox);
            && BoundInv(r) && OnceInv(r) && CoverInv(r) && Later(st, r)
            && r.state == st.state && r.concurrency <= st.concurrency
            && (r.lastFinding == 0 && Exhausted(st) ==> Exhausted(r))
            && (r.lastFinding == 0 ==> st.lastFinding == 0)
    decreases |inbox|
  {
    hide BoundInv, OnceInv, CoverInv, Exhausted, Expanded;
    if inbox != [] && inbox[0].size != 0 {
      ExpandKeeps(st, inbox[0]);
      var next := Expanded(st, inbox[0]);
      var after := next.(concurrency := next.concurrency - 1);
      SameHistory(next, after);
      DrainKeeps(after, inbox[1..]);
      if next.lastFinding == 0 {
        SameHistory(st, after);
      }
    }
  }

  lemma AskCovers(st: Lookup, now: int)
    requires OnceInv(st) && CoverInv(st) && st.qfind != map[]
    ensures CoverInv(Asked(st, now)) && Later(st, Asked(st, now))
  {
    hide Dist, Accounted, HeardId, HeardHost;
    var d := Min(st.qfind.Keys);
    var r := Asked(st, now);
    assert r.sent[|st.sent|] == st.qfind[d];
    assert Carries(st, r);
    forall k | 0 <= k < |r.learned|
      ensures Accounted(r, k)
    {
      StaysAccounted(st, r, k);
    }
    HeardMore(st, r, |st.learned|);
  }

  lemma AskOnce(st: Lookup, now: int)
    requires OnceInv(st) && st.qfind != map[]
    ensures OnceInv(Asked(st, now))
  {
    hide Dist;
    var d := Min(st.qfind.Keys);
    var r := Asked(st, now);
    var item := st.qfind[d];
    assert Known(st, item) && Dist(item.kadid, st.target) == d;
    assert forall x :: Known(st, x) <==> Known(r, x);
    forall i, j | 0 <= i < j < |r.sent|
      ensures r.sent[i].kadid != r.sent[j].kadid && r.sent[i].host != r.sent[j].host
    {
      if j == |st.sent| {
        assert Dist(st.sent[i].kadid, st.target) != d;
      }
    }
    forall i, e | 0 <= i < |r.sent| && e in r.qfind
      ensures Dist(r.sent[i].kadid, r.target) != e && r.sent[i].host != r.qfind[e].host
    {
      if i == |st.sent| {
        assert e != d && st.qfind[e].host != st.qfind[d].host;
      }
    }
  }

  lemma AskKeeps(st: Lookup, now: int)
    requires BoundInv(st) && OnceInv(st) && CoverInv(st) && st.qfind != map[]
    ensures var r := Asked(st, now);
            BoundInv(r) && OnceInv(r) && CoverInv(r) && Later(st, r)
  {
    AskCovers(st, now);
    AskOnce(st, now);
  }

  lemma {:induction false} FillKeeps(st: Lookup, now: int)
    requires BoundInv(st) && OnceInv(st) && CoverInv(st) && st.concurrency <= CONCURRENT_REQUEST
    ensures var r := Filled(st, now);
            && BoundInv(r) && OnceInv(r) && CoverInv(r) && Later(st, r)
            && r.state == st.state && r.concurrency <= CONCURRENT_REQUEST
            && (r.concurrency < CONCURRENT_REQUEST ==> Exhausted(r))
            && (r.lastFinding == 0 && st.concurrency < CONCURRENT_REQUEST ==> Exhausted(r))
    decreases |st.qfind|
  {
    hide BoundInv, OnceInv, CoverInv, Exhausted;
    if !(st.concurrency >= CONCURRENT_REQUEST || Exhausted(st)) {
      assert st.qfind != map[] by {
        Frontier(st);
      }
      var d := Min(st.qfind.Keys);
      assert (st.qfind - {d}).Keys == st.qfind.Keys - {d};
      assert |(st.qfind - {d}).Keys| < |st.qfind.Keys|;
      AskKeeps(st, now);
      FillKeeps(Asked(st, now), now);
      StillFound(Asked(st, now), now);
    }
  }

  lemma Frontier(st: Lookup)
    requires !Exhausted(st)
    ensures st.qfind != map[]
  {
  }

  lemma {:induction false} StillFound(st: Lookup, now: int)
    ensures Filled(st, now).lastFinding >= st.lastFinding
    decreases |st.qfind|
  {
    if !(st.concurrency >= CONCURRENT_REQUEST || Exhausted(st)) {
      var d := Min(st.qfind.Keys);
      assert (st.qfind - {d}).Keys == st.qfind.Keys - {d};
      assert |(st.qfind - {d}).Keys| < |st.qfind.Keys|;
      StillFound(Asked(st, now), now);
    }
  }

  // ----------------------------------------------------------------- whole calls

  /** Every call keeps the invariant, and a call that returns a result leaves
      nothing worth asking. */
  lemma {:induction false} CalledKeeps(st: Lookup, inbox: seq<Packet>, phase: nat, now: int, tnow: int)
    requires phase <= 2 && Inv(st.(state := phase))
    ensures var (r, rest, outcome) := Called(st, inbox, phase, now, tnow);
            Inv(r) && Later(st, r) && (outcome.Done? ==> Exhausted(r) && r.concurrency <= 0)
    decreases |inbox|, |st.qfind|, st.lastFinding, 2 - phase
  {
    hide BoundInv, OnceInv, CoverInv, Exhausted, Drained, Filled;
    var at := st.(state := phase);
    if phase == 0 {
      SameHistory(at, at.(state := 1));
      CalledKeeps(at, inbox, 1, now, tnow);
    } else if phase == 1 {
      FillShrinks(at, now);
      FillKeeps(at, now);
      var filled := Filled(at, now);
      SameHistory(filled, filled.(state := 2));
      if filled.concurrency != 0 {
        CalledKeeps(filled, inbox, 2, now, tnow);
      }
    } else {
      DrainConsumes(at, inbox);
      DrainKeeps(at, inbox);
      var (drained, rest) := Drained(at, inbox);
      var w := GiveUp(drained, tnow);
      SameHistory(drained, w);
      var again := w.(lastFinding := 0);
      SameHistory(w, again.(state := 0));
      if w.concurrency < CONCURRENT_REQUEST && w.lastFinding > 0 {
        CalledKeeps(again, rest, 0, now, tnow);
      }
    }
  }

  ghost function Start(target: Id, items: seq<KItem>, now: int): Lookup {
    LearnAll(Lookup(target, 0, 0, 0, 0, now, false, 0, map[], map[], {}, {}, {}, [], {}, [], {}), items)
  }

  lemma StartInv(target: Id, items: seq<KItem>, now: int)
    ensures Inv(Start(target, items, now))
  {
    LearnAllKeeps(Lookup(target, 0, 0, 0, 0, now, false, 0, map[], map[], {}, {}, {}, [], {}, [], {}), items);
  }

  /** A call of the lookup: the packets waiting for it and the two clocks. */
  datatype Call = Call(inbox: seq<Packet>, now: int, tnow: int)

  /** The lookup after a sequence of calls. */
  ghost function Run(target: Id, items: seq<KItem>, start: int, calls: seq<Call>): (st: Lookup)
    ensures Inv(st)
  {
    if calls == [] then
      StartInv(target, items, start);
      Start(target, items, start)
    else
      var st := Run(target, items, start, calls[..|calls| - 1]);
      var call := calls[|calls| - 1];
      CalledKeeps(st, call.inbox, st.state, call.now, call.tnow);
      Called(st, call.inbox, st.state, call.now, call.tnow).0
  }

  /** Candidate `k` used up its host: it has been asked, or it still waits, too
      far away to be asked. */
  ghost predicate TookHost(r: Lookup, k: nat)
    requires k < |r.learned|
  {
    var item := r.learned[k];
    item in r.sent || (Waiting(r, item) && r.trim && r.ended < Dist(item.kadid, r.target))
  }

  /** Candidate `k` was asked, or an earlier one had used up its host. */
  ghost predicate AskedOrTaken(r: Lookup, k: nat)
    requires k < |r.learned|
  {
    || r.learned[k] in r.sent
    || exists i :: 0 <= i < k && i in r.joined && r.learned[i].host == r.learned[k].host && TookHost(r, i)
  }

  /** The identifier of candidate `k` was tried: `k`, or an earlier candidate
      with the same identifier, was asked or found its host used up. */
  ghost predicate Tried(r: Lookup, k: nat)
    requires k < |r.learned|
  {
    exists j :: 0 <= j <= k && r.learned[j].kadid == r.learned[k].kadid && AskedOrTaken(r, j)
  }

  /** When a lookup is over, the identifier of every candidate it ever heard of,
      within the distance of the eighth closest responder, has been asked, or its
      host had been used up by a candidate that was asked itself or still waits
      beyond that distance.  With fewer than eight responders this holds of every
      candidate and the frontier is empty. */
  lemma LookupIsComplete(st: Lookup, inbox: seq<Packet>, now: int, tnow: int)
    requires Inv(st)
    requires Called(st, inbox, st.state, now, tnow).2.Done?
    ensures var r := Called(st, inbox, st.state, now, tnow).0;
            && (forall k :: 0 <= k < |r.learned| && (r.trim ==> Dist(r.learned[k].kadid, r.target) <= r.ended) ==> Tried(r, k))
            && (|r.responders| < K ==> !r.trim && r.qfind == map[])
            && (|r.responders| >= K ==>
                  r.trim && IsMax(r.mapined, r.ended) && IsClosest(r.mapined, r.responders))
  {
    CalledKeeps(st, inbox, st.state, now, tnow);
    var r := Called(st, inbox, st.state, now, tnow).0;
    hide Called, Tried;
    forall k: nat | k < |r.learned| && (r.trim ==> Dist(r.learned[k].kadid, r.target) <= r.ended)
      ensures Tried(r, k)
    {
      HeardIsTried(r, k);
    }
  }

  /** Down the earlier candidates with the same identifier to the first one. */
  lemma {:induction false} HeardIsTried(r: Lookup, k: nat)
    requires CoverInv(r) && Exhausted(r) && k < |r.learned|
    requires r.trim ==> Dist(r.learned[k].kadid, r.target) <= r.ended
    ensures Tried(r, k)
  {
    hide Dist;
    assert Accounted(r, k);
    var item := r.learned[k];
    var d := Dist(item.kadid, r.target);
    if HeardId(r, k, d) {
      var j :| 0 <= j < k && Dist(r.learned[j].kadid, r.target) == d;
      DistNamesId(r.learned[j].kadid, item.kadid, r.target);
      HeardIsTried(r, j);
    } else {
      if k in r.joined {
        JoinedIsUsed(r, k);
      } else {
        var i :| 0 <= i < k && i in r.joined && r.learned[i].host == item.host;
        JoinedIsUsed(r, i);
      }
      assert AskedOrTaken(r, k);
    }
  }

  /** Whoever joined the frontier was asked, or waits beyond the bound. */
  lemma JoinedIsUsed(r: Lookup, k: nat)
    requires CoverInv(r) && Exhausted(r) && k in r.joined
    ensures k < |r.learned| && TookHost(r, k)
    ensures (r.trim ==> Dist(r.learned[k].kadid, r.target) <= r.ended) ==> r.learned[k] in r.sent
  {
    hide Dist;
  }

  /** In no run is an identifier or a host asked twice, and no more than three
      queries are counted as being in flight. */
  lemma AskedAtMostOnce(target: Id, items: seq<KItem>, start: int, calls: seq<Call>)
    ensures var st := Run(target, items, start, calls);
            && st.concurrency <= CONCURRENT_REQUEST
            && (forall i, j :: 0 <= i < j < |st.sent| ==>
                  st.sent[i].kadid != st.sent[j].kadid && st.sent[i].host != st.sent[j].host)
            && (forall i, d :: 0 <= i < |st.sent| && d in st.qfind ==> Dist(st.sent[i].kadid, target) != d)
  {
    var st := Run(target, items, start, calls);
    assert Inv(st);
    RunTarget(target, items, start, calls);
  }

  lemma {:induction false} RunTarget(target: Id, items: seq<KItem>, start: int, calls: seq<Call>)
    ensures Run(target, items, start, calls).target == target
  {
    if calls == [] {
      LearnAllKeeps(Lookup(target, 0, 0, 0, 0, start, false, 0, map[], map[], {}, {}, {}, [], {}, [], {}), items);
    } else {
      RunTarget(target, items, start, calls[..|calls| - 1]);
      var st := Run(target, items, start, calls[..|calls| - 1]);
      var call := calls[|calls| - 1];
      CalledKeeps(st, call.inbox, st.state, call.now, call.tnow);
    }
  }

  // ------------------------------------------------------------------ the class

  class KFind {
    const target: Id
    var state: nat
    var concurrency: int
    var lastFinding: nat
    var summary: nat
    var lastUpdate: int
    var trim: bool
    var ended: nat
    var qfind: map<nat, KItem>
    var outqueue: map<nat, KItem>
    var mapoutedkadid: set<nat>
    var mapoutedaddr: set<nat>
    var mapined: set<nat>
    ghost var learned: seq<KItem>
    ghost var joined: set<nat>
    ghost var sent: seq<KItem>
    ghost var responders: set<nat>

    ghost function State(): (st: Lookup)
      reads this
      ensures st.state == state && st.concurrency == concurrency && st.lastFinding == lastFinding
      ensures st.summary == summary && st.lastUpdate == lastUpdate && st.qfind == qfind
      ensures st.target == target && st.learned == learned
      ensures st.outedIds == mapoutedkadid && st.outedHosts == mapoutedaddr
    {
      Lookup(target, state, concurrency, lastFinding, summary, lastUpdate, trim, ended,
             qfind, outqueue, mapoutedkadid, mapoutedaddr, mapined, learned, joined, sent, responders)
    }

    constructor (target: Id, items: seq<KItem>, now: int)
      ensures State() == Start(target, items, now) && Inv(State())
    {
      this.target := target;
      state, concurrency, lastFinding, summary, lastUpdate := 0, 0, 0, 0, now;
      trim, ended := false, 0;
      qfind, outqueue, mapoutedkadid, mapoutedaddr, mapined := map[], map[], {}, {}, {};
      learned, joined, sent, responders := [], {}, [], {};
      new;
      ghost var empty := State();
      for i := 0 to |items|
        invariant State() == LearnAll(empty, items[..i]) && !trim
      {
        assert items[..i + 1][..i] == items[..i];
        HearOf(items[i]);
      }
      assert items[..|items|] == items;
      StartInv(target, items, now);
    }

    /** Burns the identifier and the host; both must be new to be asked. */
    method HearOf(item: KItem)
      modifies this`mapoutedkadid, this`mapoutedaddr, this`qfind, this`learned, this`joined
      ensures State() == Burn(old(State()).(learned := old(learned) + [item]), item)
    {
      hide Dist, State;
      var dist := Dist(item.kadid, target);
      var isNew := BurnId(item, dist);
      if isNew && item.host !in mapoutedaddr {
        Join(item, dist);
      }
    }

    method BurnId(item: KItem, dist: nat) returns (isNew: bool)
      modifies this`mapoutedkadid, this`learned
      ensures isNew == (dist !in old(mapoutedkadid))
      ensures State() == var st := old(State()); st.(learned := st.learned + [item], outedIds := st.outedIds + {dist})
    {
      learned := learned + [item];
      isNew := dist !in mapoutedkadid;
      mapoutedkadid := mapoutedkadid + {dist};
    }

    method Join(item: KItem, dist: nat)
      requires learned != []
      modifies this`mapoutedaddr, this`qfind, this`joined
      ensures State() == var st := old(State());
                         st.(outedHosts := st.outedHosts + {item.host}, qfind := Put(st.qfind, dist, item),
                             joined := st.joined + {|st.learned| - 1})
    {
      mapoutedaddr := mapoutedaddr + {item.host};
      joined := joined + {|learned| - 1};
      qfind := Put(qfind, dist, item);
    }

    static method Back(s: set<nat>) returns (d: nat)
      requires s != {}
      ensures d == Max(s)
    {
      HasExtremes(s);
      d :| IsMax(s, d);
    }

    static method Begin(s: set<nat>) returns (d: nat)
      requires s != {}
      ensures d == Min(s)
    {
      HasExtremes(s);
      d :| IsMin(s, d);
    }

    method Respond(id: Id)
      modifies this`lastFinding, this`outqueue, this`mapined, this`ended, this`trim, this`responders
      ensures State() == Responded(old(State()), id)
    {
      ghost var was := State();
      var dist := Dist(id, target);
      hide Dist, Responded, Kept, Max;
      var kept, back := Keep(dist);
      RespondedAt(was, id, kept, back);
      lastFinding := lastFinding + 1;
      outqueue := outqueue - {dist};
      mapined := kept;
      if |kept| == K {
        ended := back;
        trim := true;
      }
      assert ended == (if |kept| == K then back else was.ended) && trim == (was.trim || |kept| == K);
      responders := responders + {dist};
    }

    /** The responders to keep, and the farthest of them. */
    method Keep(dist: nat) returns (kept: set<nat>, back: nat)
      ensures kept == Kept(mapined, dist) && kept != {} && back == Max(kept)
    {
      kept := mapined + {dist};
      back := Back(kept);
      if |kept| > K {
        kept := kept - {back};
        back := Back(kept);
      }
    }

    method HearNode(item: KItem)
      modifies this`mapoutedkadid, this`mapoutedaddr, this`qfind, this`learned, this`joined
      ensures State() == Learn(old(State()), item)
    {
      var dist := Dist(item.kadid, target);
      hide Dist;
      if trim && ended < dist {
        learned := learned + [item];
      } else {
        HearOf(item);
      }
    }

    method HearNodes(nodes: seq<KItem>)
      modifies this`mapoutedkadid, this`mapoutedaddr, this`qfind, this`learned, this`joined
      ensures State() == LearnAll(old(State()), nodes)
    {
      hide State, Learn;
      for i := 0 to |nodes|
        invariant State() == LearnAll(old(State()), nodes[..i])
      {
        assert nodes[..i + 1][..i] == nodes[..i];
        HearNode(nodes[i]);
      }
      assert nodes[..|nodes|] == nodes;
    }

    method CountReply()
      modifies this`summary
      ensures State() == var st := old(State()); st.(summary := st.summary + 1)
    {
      summary := summary + 1;
    }

    method KfindExpand(p: Packet)
      modifies this
      ensures State() == Expanded(old(State()), p)
    {
      hide State, Responded, LearnAll;
      CountReply();
      match p.id {
        case NoId => return;
        case HasId(id) =>
          Respond(id);
          HearNodes(p.nodes);
      }
    }

    /** Moves the closest candidate of the frontier in flight. */
    method FindNode(d: nat, now: int)
      requires qfind != map[] && d == Min(qfind.Keys)
      modifies this
      ensures State() == Asked(old(State()), now)
      ensures |qfind| < |old(qfind)|
    {
      AskedAt(State(), d, now);
      hide Asked, Min, IsMin;
      MoveInFlight(d);
      CountQuery(now);
    }

    method MoveInFlight(d: nat)
      requires d in qfind
      modifies this`outqueue, this`qfind, this`sent
      ensures State() == var st := old(State());
                         st.(outqueue := Put(st.outqueue, d, st.qfind[d]), qfind := st.qfind - {d},
                             sent := st.sent + [st.qfind[d]])
    {
      var item := qfind[d];
      outqueue := Put(outqueue, d, item);
      qfind := qfind - {d};
      sent := sent + [item];
    }

    method CountQuery(now: int)
      modifies this`lastUpdate, this`lastFinding, this`concurrency
      ensures State() == var st := old(State());
                         st.(lastUpdate := now, lastFinding := st.lastFinding + 1, concurrency := st.concurrency + 1)
    {
      lastUpdate := now;
      lastFinding := lastFinding + 1;
      concurrency := concurrency + 1;
    }

    /** Asks candidates, closest first, while fewer than three are in flight. */
    method SendRequests(now: int)
      modifies this
      ensures State() == Filled(old(State()), now)
    {
      while concurrency < CONCURRENT_REQUEST
        invariant Filled(State(), now) == Filled(old(State()), now)
        decreases |qfind|
      {
        if qfind == map[] {
          break;
        }
        var d := Begin(qfind.Keys);
        if trim && ended < d {
          break;
        }
        ghost var st := State();
        FindNode(d, now);
        FilledStep(st, now);
      }
    }

    method ReadReplies(inbox: seq<Packet>) returns (rest: seq<Packet>)
      modifies this
      ensures (State(), rest) == Drained(old(State()), inbox)
    {
      rest := inbox;
      while rest != [] && rest[0].size > 0
        invariant Drained(State(), rest) == Drained(old(State()), inbox)
        decreases |rest|
      {
        DrainedStep(State(), rest);
        hide Expanded, Drained;
        KfindExpand(rest[0]);
        concurrency := concurrency - 1;
        rest := rest[1..];
      }
      if rest != [] {
        rest := rest[1..];
      }
    }

    method EnterState(phase: nat)
      modifies this`state
      ensures State() == old(State()).(state := phase)
    {
      state := phase;
    }

    method CheckTimeout(tnow: int)
      modifies this`outqueue, this`concurrency
      ensures State() == GiveUp(old(State()), tnow)
    {
      if lastUpdate + REPLY_SECONDS <= tnow {
        outqueue := map[];
        concurrency := 0;
      }
    }

    method Restart()
      modifies this`lastFinding
      ensures State() == old(State()).(lastFinding := 0)
    {
      lastFinding := 0;
    }

    /** State 2: reads replies, then searches on, sleeps or ends. */
    method Collect(inbox: seq<Packet>, tnow: int) returns (rest: seq<Packet>, again: bool, outcome: Outcome)
      modifies this
      ensures (State(), rest, again, outcome) == Collected(old(State()), inbox, tnow)
    {
      hide Drained, State, GiveUp;
      outcome := Done(0);
      again := false;
      rest := ReadReplies(inbox);
      CheckTimeout(tnow);
      if concurrency < CONCURRENT_REQUEST && lastFinding > 0 {
        Restart();
        again := true;
      } else if concurrency > 0 {
        outcome := Sleep(lastUpdate + REPLY_SECONDS);
      } else {
        outcome := Done(summary);
      }
    }

    /** One turn of the switch; it leaves less to do when there is another. */
    method Turn(inbox: seq<Packet>, phase: nat, now: int, tnow: int)
        returns (rest: seq<Packet>, next: nat, again: bool, outcome: Outcome)
      requires phase <= 2
      modifies this
      ensures next <= 2
      ensures again ==> Called(State(), rest, next, now, tnow) == Called(old(State()), inbox, phase, now, tnow)
      ensures again ==>
        || |rest| < |inbox|
        || (|rest| == |inbox| && |qfind| < |old(qfind)|)
        || (|rest| == |inbox| && qfind == old(qfind) && lastFinding < old(lastFinding))
        || (|rest| == |inbox| && qfind == old(qfind) && lastFinding == old(lastFinding) && phase < next)
      ensures !again ==> (State(), rest, outcome) == Called(old(State()), inbox, phase, now, tnow)
    {
      CalledStep(State(), inbox, phase, now, tnow);
      hide Called, Filled, Drained, GiveUp, Collected;
      EnterState(phase);
      rest, next, again, outcome := inbox, phase + 1, true, Done(0);
      if phase == 1 {
        SendRequests(now);
        if concurrency == 0 {
          again, outcome := false, Done(summary);
        }
      } else if phase == 2 {
        rest, again, outcome := Collect(rest, tnow);
        next := 0;
      }
    }

    method Vcall(inbox: seq<Packet>, now: int, tnow: int) returns (rest: seq<Packet>, outcome: Outcome)
      requires Inv(State())
      modifies this
      ensures (State(), rest, outcome) == Called(old(State()), inbox, old(state), now, tnow)
      ensures Inv(State()) && Later(old(State()), State())
      ensures outcome.Done? ==> Exhausted(State())
    {
      StateBound(State());
      CalledKeeps(State(), inbox, state, now, tnow);
      hide Called, Inv, Later, Exhausted;
      var phase := state;
      rest, outcome := inbox, Done(0);
      var again := true;
      while again
        invariant phase <= 2
        invariant again ==> Called(State(), rest, phase, now, tnow) == Called(old(State()), inbox, old(state), now, tnow)
        invariant !again ==> (State(), rest, outcome) == Called(old(State()), inbox, old(state), now, tnow)
        decreases again, |rest|, |qfind|, lastFinding, 2 - phase
      {
        rest, phase, again, outcome := Turn(rest, phase, now, tnow);
      }
    }
  }

  ghost function Collected(st: Lookup, inbox: seq<Packet>, tnow: int): (Lookup, seq<Packet>, bool, Outcome) {
    var (drained, rest) := Drained(st, inbox);
    var w := GiveUp(drained, tnow);
    if w.concurrency < CONCURRENT_REQUEST && w.lastFinding > 0 then (w.(lastFinding := 0), rest, true, Done(0))
    else if w.concurrency > 0 then (w, rest, false, Sleep(w.lastUpdate + REPLY_SECONDS))
    else (w, rest, false, Done(w.summary))
  }

  lemma DrainedStep(st: Lookup, inbox: seq<Packet>)
    requires inbox != [] && inbox[0].size > 0
    ensures var next := Expanded(st, inbox[0]);
            Drained(st, inbox) == Drained(next.(concurrency := next.concurrency - 1), inbox[1..])
  {
    hide Expanded;
  }

  /** One turn of the switch, and why the turns come to an end. */
  lemma CalledStep(st: Lookup, inbox: seq<Packet>, phase: nat, now: int, tnow: int)
    requires phase <= 2
    ensures var at := st.(state := phase);
            && (phase == 0 ==> Called(st, inbox, 0, now, tnow) == Called(at, inbox, 1, now, tnow))
            && (phase == 1 ==>
                  var filled := Filled(at, now);
                  && (filled == at || |filled.qfind| < |st.qfind|)
                  && Called(st, inbox, 1, now, tnow)
                     == if filled.concurrency == 0 then (filled, inbox, Done(filled.summary))
                        else Called(filled, inbox, 2, now, tnow))
            && (phase == 2 ==>
                  var c := Collected(at, inbox, tnow);
                  && (c.2 ==> |c.1| < |inbox| || (c.1 == inbox && c.0.qfind == st.qfind && c.0.lastFinding < st.lastFinding))
                  && Called(st, inbox, 2, now, tnow)
                     == if c.2 then Called(c.0, c.1, 0, now, tnow) else (c.0, c.1, c.3))
  {
    hide Filled, Drained;
    FillShrinks(st.(state := phase), now);
    DrainConsumes(st.(state := phase), inbox);
  }

  lemma AskedAt(st: Lookup, d: nat, now: int)
    requires st.qfind != map[] && d == Min(st.qfind.Keys)
    ensures d in st.qfind && |st.qfind - {d}| < |st.qfind|
    ensures Asked(st, now)
         == st.(outqueue := Put(st.outqueue, d, st.qfind[d]), qfind := st.qfind - {d}, sent := st.sent + [st.qfind[d]],
                lastUpdate := now, lastFinding := st.lastFinding + 1, concurrency := st.concurrency + 1)
  {
    assert IsMin(st.qfind.Keys, d);
    assert (st.qfind - {d}).Keys == st.qfind.Keys - {d};
    assert |(st.qfind - {d}).Keys| < |st.qfind.Keys|;
  }

  lemma RespondedAt(st: Lookup, id: Id, kept: set<nat>, back: nat)
    requires kept == Kept(st.mapined, Dist(id, st.target)) && kept != {} && back == Max(kept)
    ensures Responded(st, id)
         == st.(lastFinding := st.lastFinding + 1, outqueue := st.outqueue - {Dist(id, st.target)}, mapined := kept,
                ended := if |kept| == K then back else st.ended, trim := st.trim || |kept| == K,
                responders := st.responders + {Dist(id, st.target)})
  {
    hide Dist, Max;
  }

  lemma FilledStep(st: Lookup, now: int)
    requires st.concurrency < CONCURRENT_REQUEST && !Exhausted(st)
    ensures st.qfind != map[] && Filled(st, now) == Filled(Asked(st, now), now)
  {
  }

  lemma StateBound(st: Lookup)
    requires Inv(st)
    ensures st.state <= 2 && st.(state := st.state) == st
  {
  }
}
