/** The ring of block requests that each peer keeps in both directions. */
module RequestRing {

  const QUEUESIZE: nat := 30
  const MAXREQUEST: int := 65536

  datatype Request = Request(block: int, offset: int, length: int)

  // ------------------------------------------------------ what the ring stands for

  const TOO_LONG: int := -1
  const FULL: int := -2

  function QueueCode(q: seq<Request>, r: Request): int {
    if r.length > MAXREQUEST then TOO_LONG else if |q| >= QUEUESIZE - 1 then FULL else 0
  }

  function Queued(q: seq<Request>, r: Request): seq<Request> {
    if QueueCode(q, r) == 0 then q + [r] else q
  }

  /** How many of the first `n` requests are `r`. */
  function Matches(q: seq<Request>, r: Request, n: nat): (m: nat)
    requires n <= |q|
    ensures m <= n
  {
    if n == 0 then 0 else Matches(q, r, n - 1) + if q[n - 1] == r then 1 else 0
  }

  /** Where entry `k` comes from when `r` is removed: as many places further on
      as there are matches up to `k`. */
  function Source(q: seq<Request>, r: Request, k: nat): (i: nat)
    requires k < |q|
  {
    k + Matches(q, r, k + 1)
  }

  /** The requests left by `remove_queued_request`. */
  function Removed(q: seq<Request>, r: Request): (left: seq<Request>)
    ensures |left| == |q| - Matches(q, r, |q|)
  {
    MatchesSpread(q, r);
    seq(|q| - Matches(q, r, |q|), k requires 0 <= k < |q| - Matches(q, r, |q|) => q[Source(q, r, k)])
  }

  function Without(q: seq<Request>, r: Request): seq<Request> {
    if q == [] then []
    else
      var last := q[|q| - 1];
      Without(q[..|q| - 1], r) + if last == r then [] else [last]
  }

  lemma {:induction false} MatchesMonotone(q: seq<Request>, r: Request, i: nat, j: nat)
    requires i <= j <= |q|
    ensures Matches(q, r, i) <= Matches(q, r, j) <= Matches(q, r, i) + (j - i)
  {
    if i < j {
      MatchesMonotone(q, r, i, j - 1);
    }
  }

  lemma MatchesSpread(q: seq<Request>, r: Request)
    ensures forall k :: 0 <= k < |q| - Matches(q, r, |q|) ==> Source(q, r, k) < |q|
  {
    forall k | 0 <= k < |q| - Matches(q, r, |q|)
      ensures Source(q, r, k) < |q|
    {
      MatchesMonotone(q, r, k + 1, |q|);
    }
  }

  lemma {:induction false} MatchesPrefix(q: seq<Request>, x: Request, r: Request, n: nat)
    requires n <= |q|
    ensures Matches(q + [x], r, n) == Matches(q, r, n)
  {
    if n > 0 {
      MatchesPrefix(q, x, r, n - 1);
    }
  }

  // ---------------------------------------------------------- what removal achieves

  /** What is left is a subsequence of what was there: entries keep their order
      and none appears from nowhere. */
  lemma RemovalKeepsOrder(q: seq<Request>, r: Request, j: nat, k: nat)
    requires j < k < |Removed(q, r)|
    ensures Source(q, r, j) < Source(q, r, k) < |q|
    ensures Removed(q, r)[j] == q[Source(q, r, j)] && Removed(q, r)[k] == q[Source(q, r, k)]
  {
    MatchesSpread(q, r);
    MatchesMonotone(q, r, j + 1, k + 1);
  }

  /** No request that does not match follows the second match. */
  ghost predicate SecondMatchEnds(q: seq<Request>, r: Request) {
    forall i, j, k :: 0 <= i < j < k < |q| && q[i] == r && q[j] == r ==> q[k] == r
  }

  lemma {:induction false} WithoutMatch(q: seq<Request>, r: Request)
    ensures r !in Without(q, r)
    ensures |Without(q, r)| == |q| - Matches(q, r, |q|)
  {
    if q != [] {
      var init := q[..|q| - 1];
      WithoutMatch(init, r);
      assert q == init + [q[|q| - 1]];
      MatchesPrefix(init, q[|q| - 1], r, |init|);
    }
  }

  lemma MatchesOfPrefix(q: seq<Request>, x: Request, r: Request)
    ensures forall i :: 0 <= i <= |q| ==> Matches(q + [x], r, i) == Matches(q, r, i)
    ensures Matches(q + [x], r, |q| + 1) == Matches(q, r, |q|) + if x == r then 1 else 0
  {
    forall i | 0 <= i <= |q|
      ensures Matches(q + [x], r, i) == Matches(q, r, i)
    {
      MatchesPrefix(q, x, r, i);
    }
  }

  lemma RemovedSnocMatch(q: seq<Request>, r: Request)
    ensures Removed(q + [r], r) == Removed(q, r)
  {
    hide Matches;
    MatchesOfPrefix(q, r, r);
    MatchesSpread(q, r);
    MatchesSpread(q + [r], r);
  }

  lemma RemovedSnocOther(q: seq<Request>, x: Request, r: Request)
    requires x != r && Matches(q, r, |q|) <= 1
    ensures Removed(q + [x], r) == Removed(q, r) + [x]
  {
    var n, p, m := |q|, q + [x], Matches(q, r, |q|);
    MatchesOfPrefix(q, x, r);
    MatchesMonotone(p, r, n - m + 1, n + 1);
    hide *;
    assert |Removed(p, r)| == n - m + 1 && |Removed(q, r)| == n - m;
    RemovedAt(p, r, n - m);
    forall k | 0 <= k < n - m
      ensures Removed(p, r)[k] == Removed(q, r)[k]
    {
      RemovedAt(p, r, k);
      RemovedAt(q, r, k);
    }
  }

  lemma RemovedAt(q: seq<Request>, r: Request, k: nat)
    requires k < |q| - Matches(q, r, |q|)
    ensures Source(q, r, k) < |q|
    ensures Removed(q, r)[k] == q[Source(q, r, k)]
  {
    MatchesSpread(q, r);
  }

  lemma {:induction false} SecondMatch(q: seq<Request>, r: Request, k: nat) returns (j: nat)
    requires k <= |q| && Matches(q, r, k) >= 2
    ensures 0 < j < k && q[j] == r && Matches(q, r, j) == 1
  {
    if Matches(q, r, k - 1) >= 2 {
      j := SecondMatch(q, r, k - 1);
    } else {
      j := k - 1;
    }
  }

  lemma {:induction false} FirstMatch(q: seq<Request>, r: Request, n: nat) returns (i: nat)
    requires n <= |q| && Matches(q, r, n) >= 1
    ensures i < n && q[i] == r
  {
    if q[n - 1] == r {
      i := n - 1;
    } else {
      i := FirstMatch(q, r, n - 1);
    }
  }

  /** Removal drops exactly the matching requests if and only if none that does
      not match follows the second match; one match is always handled. */
  lemma {:induction false} RemovalIsFilterIff(q: seq<Request>, r: Request)
    ensures Removed(q, r) == Without(q, r) <==> SecondMatchEnds(q, r)
    ensures Matches(q, r, |q|) <= 1 ==> SecondMatchEnds(q, r)
  {
    if SecondMatchEnds(q, r) {
      TidyRemoval(q, r);
    } else {
      UntidyRemoval(q, r);
      WithoutMatch(q, r);
    }
    OneMatch(q, r);
  }

  lemma UntidyRemoval(q: seq<Request>, r: Request)
    requires !SecondMatchEnds(q, r)
    ensures r in Removed(q, r)
  {
    var i, j, k :| 0 <= i < j < k < |q| && q[i] == r && q[j] == r && q[k] != r;
    MatchesMonotone(q, r, 0, i);
    MatchesMonotone(q, r, i + 1, j);
    var b := SecondMatch(q, r, j + 1);
    LateNonMatch(q, r, b, k);
    MatchesSpread(q, r);
    assert Removed(q, r)[b - 1] == q[Source(q, r, b - 1)];
  }

  /** For one: two equal requests with another one behind them. */
  lemma RemovalIsNoFilter(a: Request, b: Request)
    requires a != b
    ensures Removed([a, a, b], a) != Without([a, a, b], a)
  {
    var q := [a, a, b];
    assert q[0] == a && q[1] == a && q[2] == b;
    assert !SecondMatchEnds(q, a);
    RemovalIsFilterIff(q, a);
  }

  lemma LateNonMatch(q: seq<Request>, r: Request, b: nat, k: nat)
    requires 0 < b < k < |q| && q[k] != r && Matches(q, r, b) == 1
    ensures b - 1 < |q| - Matches(q, r, |q|)
  {
    MatchesMonotone(q, r, b, k);
    MatchesMonotone(q, r, k + 1, |q|);
  }

  lemma TwoMatches(q: seq<Request>, r: Request, i: nat, j: nat)
    requires i < j < |q| && q[i] == r && q[j] == r
    ensures Matches(q, r, |q|) >= 2
  {
    MatchesMonotone(q, r, i + 1, j);
    MatchesMonotone(q, r, j + 1, |q|);
  }

  lemma OneMatch(q: seq<Request>, r: Request)
    ensures Matches(q, r, |q|) <= 1 ==> SecondMatchEnds(q, r)
  {
    forall i, j | 0 <= i < j < |q| && q[i] == r && q[j] == r
      ensures Matches(q, r, |q|) >= 2
    {
      TwoMatches(q, r, i, j);
    }
  }

  lemma TidyEnd(init: seq<Request>, x: Request, r: Request)
    ensures x != r && Matches(init, r, |init|) >= 2 ==> !SecondMatchEnds(init + [x], r)
  {
    if x != r && Matches(init, r, |init|) >= 2 {
      var q := init + [x];
      var j := SecondMatch(init, r, |init|);
      var i := FirstMatch(init, r, j);
      assert q[i] == r && q[j] == r && q[|init|] != r;
    }
  }

  lemma {:induction false} TidyRemoval(q: seq<Request>, r: Request)
    requires SecondMatchEnds(q, r)
    ensures Removed(q, r) == Without(q, r)
  {
    if q != [] {
      var init, x := q[..|q| - 1], q[|q| - 1];
      assert q == init + [x];
      assert SecondMatchEnds(init, r) by {
        assert forall i :: 0 <= i < |init| ==> init[i] == q[i];
      }
      TidyRemoval(init, r);
      if x == r {
        RemovedSnocMatch(init, r);
      } else {
        TidyEnd(init, x, r);
        RemovedSnocOther(init, x, r);
      }
    }
  }

  // ------------------------------------------------------------------ the ring

  class RequestQueue {
    var head: nat
    var tail: nat
    const req: array<Request>

    ghost predicate Valid()
      reads this
    {
      req.Length == QUEUESIZE && head < QUEUESIZE && tail < QUEUESIZE
    }

    function Len(): nat
      requires Valid()
      reads this
    {
      if tail >= head then tail - head else tail + QUEUESIZE - head
    }


    ghost function Contents(): (q: seq<Request>)
      requires Valid()
      reads this, req
      ensures |q| == Len() < QUEUESIZE
    {
      View(req[..], head, Len())
    }

    constructor ()
      ensures Valid() && Contents() == [] && fresh(req)
    {
      req := new Request[QUEUESIZE](_ => Request(0, 0, 0));
      head, tail := 0, 0;
    }

    method QueueRequest(r: Request) returns (code: int)
      requires Valid()
      modifies this`tail, req
      ensures Valid()
      ensures code == QueueCode(old(Contents()), r)
      ensures Contents() == Queued(old(Contents()), r)
    {
      var oldtail := tail;
      var newtail := (oldtail + 1) % QUEUESIZE;
      if r.length > MAXREQUEST {
        return TOO_LONG;
      }
      if newtail == head {
        return FULL;
      }
      ghost var was := Contents();
      req[oldtail] := r;
      tail := newtail;
      assert Len() == |was| + 1;
      assert Contents() == was + [r];
      return 0;
    }

    method ClearRequestQueue()
      requires Valid()
      modifies this`head
      ensures Valid() && Contents() == []
    {
      head := tail;
    }

    method DequeueRequest() returns (some: bool, r: Request)
      requires Valid()
      modifies this`head
      ensures Valid()
      ensures some == (old(Contents()) != [])
      ensures some ==> old(Contents()) == [r] + Contents()
      ensures !some ==> Contents() == []
    {
      var oldhead := head;
      if oldhead == tail {
        return false, Request(0, 0, 0);
      }
      ghost var was := Contents();
      some, r := true, req[oldhead];
      head := (oldhead + 1) % QUEUESIZE;
      assert Len() + 1 == |was|;
      assert was == [r] + Contents();
    }

    method RemoveQueuedRequest(r: Request) returns (offby: nat)
      requires Valid()
      modifies this`tail, req
      ensures Valid()
      ensures offby == Matches(old(Contents()), r, |old(Contents())|)
      ensures Contents() == Removed(old(Contents()), r)
    {
      ghost var was := Contents();
      offby := ShiftDown(r, was);
      ShiftedView(req[..], head, was, r);
      Shrunk(head, tail, offby);
      hide Matches, Slot, View, Removed, Shifted;
      tail := (tail + QUEUESIZE - offby) % QUEUESIZE;
    }

    /** One turn at slot `i`: counts a match, and copies once there was one. */
    method ShiftSlot(i: nat, r: Request, offby: nat) returns (m: nat)
      requires Valid() && i < QUEUESIZE
      modifies req
      ensures m == offby + (if old(req[i]) == r then 1 else 0)
      ensures req[..] == Turned(old(req[..]), i, m)
    {
      hide Wrap;
      m := offby;
      if req[i] == r {
        m := m + 1;
      }
      if m > 0 {
        req[i] := req[Wrap(i + m)];
      }
    }

    method ShiftDown(r: Request, ghost was: seq<Request>) returns (offby: nat)
      requires Valid() && Shifted(req[..], head, was, r, 0) && |was| == Distance(head, tail)
      modifies req
      ensures offby == Matches(was, r, |was|)
      ensures Shifted(req[..], head, was, r, |was|)
    {
      SlotZero(head, was, r);
      hide Slot, Wrap, Shifted, Matches, Distance, Source, Turned;
      var i := head;
      ghost var t := 0;
      offby := 0;
      while i != tail
        invariant t <= |was| && i == Slot(head, t) && offby == Matches(was, r, t)
        invariant Shifted(req[..], head, was, r, t)
        decreases |was| - t
      {
        BeforeTail(head, tail, t);
        ShiftStep(req[..], head, was, r, t);
        SlotShift(head, t, 1);
        offby := ShiftSlot(i, r, offby);
        i := Wrap(i + 1);
        t := t + 1;
      }
      AtTail(head, tail, t);
    }
  }

  lemma SlotZero(head: nat, was: seq<Request>, r: Request)
    requires head < QUEUESIZE
    ensures Slot(head, 0) == head && Matches(was, r, 0) == 0
  {
  }

  /** The slots after `t` turns of the removal loop: those passed hold what they
      will hold in the end, as far as it comes from the queue at all. */
  ghost predicate Shifted(slots: seq<Request>, head: nat, was: seq<Request>, r: Request, t: nat) {
    && |slots| == QUEUESIZE && |was| < QUEUESIZE && t <= |was|
    && (forall k :: t <= k < |was| ==> slots[Slot(head, k)] == was[k])
    && (forall k :: 0 <= k < t && Source(was, r, k) < |was| ==> slots[Slot(head, k)] == was[Source(was, r, k)])
  }

  /** The slots after the turn at slot `i`, with `m` matches so far. */
  function Turned(slots: seq<Request>, i: nat, m: nat): (r: seq<Request>)
    requires |slots| == QUEUESIZE && i < QUEUESIZE
    ensures |r| == QUEUESIZE
  {
    if m > 0 then slots[i := slots[Wrap(i + m)]] else slots
  }

  lemma ShiftStep(slots: seq<Request>, head: nat, was: seq<Request>, r: Request, t: nat)
    requires head < QUEUESIZE && t < |was| && Shifted(slots, head, was, r, t)
    ensures var i, m := Slot(head, t), Matches(was, r, t + 1);
            && m == Matches(was, r, t) + (if slots[i] == r then 1 else 0)
            && Shifted(Turned(slots, i, m), head, was, r, t + 1)
  {
    var i, m := Slot(head, t), Matches(was, r, t + 1);
    assert slots[i] == was[t];
    SlotShift(head, t, m);
    SlotsDiffer(head, t);
    hide Slot, Wrap;
    if t + m < |was| {
      assert slots[Slot(head, t + m)] == was[t + m];
    }
  }

  /** The `len` entries of a ring that starts at `head`. */
  function View(slots: seq<Request>, head: nat, len: nat): (q: seq<Request>)
    requires |slots| == QUEUESIZE
    ensures |q| == len
  {
    seq(len, k requires 0 <= k < len => slots[Slot(head, k)])
  }

  lemma ShiftedView(slots: seq<Request>, head: nat, was: seq<Request>, r: Request)
    requires Shifted(slots, head, was, r, |was|)
    ensures View(slots, head, |was| - Matches(was, r, |was|)) == Removed(was, r)
  {
    hide Matches, Slot;
    MatchesSpread(was, r);
  }

  /** The slot of entry `k` of a ring that starts at `head`. */
  function Slot(head: nat, k: nat): (i: nat)
    ensures i < QUEUESIZE
  {
    Wrap(head + k)
  }

  function Wrap(i: nat): (j: nat)
    ensures j < QUEUESIZE
  {
    i % QUEUESIZE
  }

  lemma SlotShift(head: nat, k: nat, shift: nat)
    ensures Wrap(Slot(head, k) + shift) == Slot(head, k + shift)
  {
  }

  lemma SlotsDiffer(head: nat, t: nat)
    requires head < QUEUESIZE && t < QUEUESIZE
    ensures forall k :: 0 <= k < QUEUESIZE && k != t ==> Slot(head, k) != Slot(head, t)
  {
  }

  function Distance(head: nat, tail: nat): nat
    requires head < QUEUESIZE && tail < QUEUESIZE
  {
    if tail >= head then tail - head else tail + QUEUESIZE - head
  }

  lemma BeforeTail(head: nat, tail: nat, t: nat)
    requires head < QUEUESIZE && tail < QUEUESIZE && t <= Distance(head, tail) && Slot(head, t) != tail
    ensures t < Distance(head, tail) < QUEUESIZE
  {
  }

  lemma AtTail(head: nat, tail: nat, t: nat)
    requires head < QUEUESIZE && tail < QUEUESIZE && t <= Distance(head, tail) && Slot(head, t) == tail
    ensures t == Distance(head, tail)
  {
  }

  lemma Shrunk(head: nat, tail: nat, shift: nat)
    requires head < QUEUESIZE && tail < QUEUESIZE && shift <= Distance(head, tail)
    ensures var t := (tail + QUEUESIZE - shift) % QUEUESIZE;
            t < QUEUESIZE && Distance(head, t) == Distance(head, tail) - shift
  {
  }
}
