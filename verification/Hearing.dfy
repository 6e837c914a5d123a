/** What a lookup hears: its candidates, responders and count of replies are those
    of the packets it has read. */
module Hearing {
  import opened KadId
  import opened Buckets
  import opened Lookups

  /** A reply with an identifier counts as an answer. */
  predicate Answers(p: Packet) {
    p.size > 0 && p.id.HasId?
  }

  /** The candidates that the packets name, in order. */
  function Named(ps: seq<Packet>): seq<KItem> {
    if ps == [] then [] else (if Answers(ps[0]) then ps[0].nodes else []) + Named(ps[1..])
  }

  /** The distances of those that answered. */
  function Answered(ps: seq<Packet>, target: Id): set<nat> {
    if ps == [] then {}
    else (if Answers(ps[0]) then {Dist(ps[0].id.id, target)} else {}) + Answered(ps[1..], target)
  }

  /** How many packets are not empty. */
  function Replies(ps: seq<Packet>): nat {
    if ps == [] then 0 else (if ps[0].size > 0 then 1 else 0) + Replies(ps[1..])
  }

  lemma {:induction false} NamedJoin(a: seq<Packet>, b: seq<Packet>, target: Id)
    ensures Named(a + b) == Named(a) + Named(b)
    ensures Answered(a + b, target) == Answered(a, target) + Answered(b, target)
    ensures Replies(a + b) == Replies(a) + Replies(b)
  {
    if a == [] {
      assert a + b == b;
    } else {
      assert (a + b)[1..] == a[1..] + b;
      NamedJoin(a[1..], b, target);
    }
  }

  /** `r` has heard just what `st` had and what the packets say. */
  ghost predicate Hears(st: Lookup, read: seq<Packet>, r: Lookup) {
    && r.target == st.target
    && r.learned == st.learned + Named(read)
    && r.responders == st.responders + Answered(read, st.target)
    && r.summary == st.summary + Replies(read)
  }

  lemma HearsNothing(st: Lookup, r: Lookup)
    requires r.target == st.target && r.learned == st.learned && r.responders == st.responders && r.summary == st.summary
    ensures Hears(st, [], r)
  {
  }

  lemma HearsMore(st: Lookup, a: seq<Packet>, m: Lookup, b: seq<Packet>, r: Lookup)
    requires Hears(st, a, m) && Hears(m, b, r)
    ensures Hears(st, a + b, r)
  {
    NamedJoin(a, b, st.target);
    hide Dist;
  }

  lemma {:induction false} LearnAllHears(st: Lookup, items: seq<KItem>)
    ensures var r := LearnAll(st, items);
            r == st.(learned := st.learned + items, joined := r.joined, outedIds := r.outedIds,
                     outedHosts := r.outedHosts, qfind := r.qfind)
  {
    if items != [] {
      var n := |items| - 1;
      LearnAllHears(st, items[..n]);
      LearnHears(LearnAll(st, items[..n]), items[n]);
      hide Learn;
      assert st.learned + items[..n] + [items[n]] == st.learned + items;
    }
  }

  lemma LearnHears(st: Lookup, item: KItem)
    ensures var r := Learn(st, item);
            r == st.(learned := st.learned + [item], joined := r.joined, outedIds := r.outedIds,
                     outedHosts := r.outedHosts, qfind := r.qfind)
  {
    hide Dist;
  }

  lemma OneHeard(p: Packet, target: Id)
    ensures Named([p]) == if Answers(p) then p.nodes else []
    ensures Answered([p], target) == if Answers(p) then {Dist(p.id.id, target)} else {}
    ensures Replies([p]) == if p.size > 0 then 1 else 0
  {
    hide Dist;
    assert [p][1..] == [] && Named([]) == [] && Answered([], target) == {};
    assert Answers(p) ==> p.nodes + [] == p.nodes;
  }

  /** What is not part of what is heard or of the bookkeeping of candidates. */
  ghost predicate SamePipe(st: Lookup, r: Lookup) {
    r.sent == st.sent && r.lastUpdate == st.lastUpdate && r.state == st.state
  }

  /** A node heard of is passed over beyond the bound; otherwise its identifier is
      used up, and if that was new the host, and if that was new too it waits. */
  lemma LearnDoes(st: Lookup, item: KItem)
    ensures var r, d := Learn(st, item), Dist(item.kadid, st.target);
            var far := st.trim && st.ended < d;
            var newId, newHost := !far && d !in st.outedIds, item.host !in st.outedHosts;
            && r.learned == st.learned + [item]
            && r.outedIds == st.outedIds + (if far then {} else {d})
            && r.outedHosts == st.outedHosts + (if newId then {item.host} else {})
            && (!(newId && newHost) ==> r.qfind == st.qfind && r.joined == st.joined)
            && (newId && newHost ==>
                  && r.joined == st.joined + {|st.learned|} && d in r.qfind && (d !in st.qfind ==> r.qfind[d] == item)
                  && (forall e :: e != d ==> (e in r.qfind <==> e in st.qfind) && (e in st.qfind ==> r.qfind[e] == st.qfind[e])))
  {
    hide Dist;
  }

  /** A node that answers is no longer in flight, is kept if it is among the eight
      nearest, and from eight on the farthest of these is the bound. */
  lemma RespondDoes(st: Lookup, id: Id)
    requires BoundInv(st)
    ensures var r, d := Responded(st, id), Dist(id, st.target);
            && r.responders == st.responders + {d} && r.outqueue == st.outqueue - {d}
            && IsClosest(r.mapined, r.responders)
            && (if |r.mapined| == K then r.trim && IsMax(r.mapined, r.ended) else !r.trim && r.ended == st.ended)
            && r.lastFinding == st.lastFinding + 1 && r.qfind == st.qfind && r.learned == st.learned && r.sent == st.sent
            && r.outedIds == st.outedIds && r.outedHosts == st.outedHosts && r.joined == st.joined
  {
    hide Dist, Kept, Max;
    KeptIsClosest(st.mapined, st.responders, Dist(id, st.target));
  }

  lemma ExpandHears(st: Lookup, p: Packet)
    requires p.size > 0
    ensures var r := Expanded(st, p); Hears(st, [p], r) && r.concurrency == st.concurrency && SamePipe(st, r)
  {
    OneHeard(p, st.target);
    hide Dist, LearnAll, Kept, Max, Named, Answered, Replies;
    if p.id.HasId? {
      LearnAllHears(Responded(st.(summary := st.summary + 1), p.id.id), p.nodes);
    } else {
      assert st.learned + [] == st.learned;
    }
  }

  /** The loop reads up to the first empty packet, that one included. */
  ghost predicate UpToEmpty(read: seq<Packet>, rest: seq<Packet>) {
    && (forall i :: 0 <= i < |read| - 1 ==> read[i].size > 0)
    && (rest != [] ==> read != [] && read[|read| - 1].size == 0)
  }

  /** From `st` the packets `read` lead to `r`, which leaves `rest` of the inbox. */
  ghost predicate Reads(st: Lookup, inbox: seq<Packet>, read: seq<Packet>, r: Lookup, rest: seq<Packet>) {
    && inbox == read + rest && UpToEmpty(read, rest) && Hears(st, read, r)
    && r.concurrency == st.concurrency - Replies(read) && SamePipe(st, r)
  }

  lemma ReadsMore(st: Lookup, p: Packet, m: Lookup, inbox: seq<Packet>, read: seq<Packet>, r: Lookup, rest: seq<Packet>)
    requires p.size > 0 && Hears(st, [p], m) && m.concurrency == st.concurrency - 1 && SamePipe(st, m)
    requires Reads(m, inbox, read, r, rest)
    ensures Reads(st, [p] + inbox, [p] + read, r, rest)
  {
    HearsMore(st, [p], m, read, r);
    NamedJoin([p], read, st.target);
    OneHeard(p, st.target);
    hide Hears, Named, Answered, Replies, Dist;
    assert [p] + (read + rest) == [p] + read + rest;
  }

  lemma {:induction false} DrainHears(st: Lookup, inbox: seq<Packet>) returns (read: seq<Packet>)
    ensures Reads(st, inbox, read, Drained(st, inbox).0, Drained(st, inbox).1)
    decreases |inbox|
  {
    if inbox == [] {
      HearsNothing(st, st);
      return [];
    }
    var p, tail := inbox[0], inbox[1..];
    assert inbox == [p] + tail;
    if p.size == 0 {
      OneHeard(p, st.target);
      read := [p];
      assert st.learned + [] == st.learned;
    } else {
      var next := Expanded(st, p);
      var m := next.(concurrency := next.concurrency - 1);
      assert Drained(st, inbox) == Drained(m, tail);
      ExpandHears(st, p);
      hide *;
      var more := DrainHears(m, tail);
      StepHears(st, p, next, m);
      ReadsMore(st, p, m, tail, more, Drained(m, tail).0, Drained(m, tail).1);
      read := [p] + more;
    }
  }

  lemma StepHears(st: Lookup, p: Packet, next: Lookup, m: Lookup)
    requires Hears(st, [p], next) && SamePipe(st, next) && next.concurrency == st.concurrency
    requires m == next.(concurrency := next.concurrency - 1)
    ensures Hears(st, [p], m) && SamePipe(st, m) && m.concurrency == st.concurrency - 1
  {
  }

  // --------------------------------------------------------------- who is asked when

  /** The candidates at distances `ds` go, nearest first, and before all that stay. */
  ghost predicate NearestFirst(q: map<nat, KItem>, ds: seq<nat>, r: map<nat, KItem>) {
    && (forall i :: 0 <= i < |ds| ==> ds[i] in q && ds[i] !in r)
    && (forall i, j :: 0 <= i < j < |ds| ==> ds[i] < ds[j])
    && (forall d :: d in r ==> d in q && r[d] == q[d])
    && (forall d, i :: d in r && 0 <= i < |ds| ==> ds[i] < d)
    && (forall d :: d in q ==> d in r || d in ds)
  }

  lemma NearestMore(q: map<nat, KItem>, d: nat, ds: seq<nat>, r: map<nat, KItem>)
    requires IsMin(q.Keys, d) && NearestFirst(q - {d}, ds, r)
    ensures NearestFirst(q, [d] + ds, r)
  {
    var all := [d] + ds;
    forall i | 0 <= i < |all| ensures all[i] in q && all[i] !in r { NearestAt(q, d, ds, r, i); }
    forall i, j | 0 <= i < j < |all| ensures all[i] < all[j] { NearestAt(q, d, ds, r, j); }
    forall e, i | e in r && 0 <= i < |all| ensures all[i] < e { NearestAt(q, d, ds, r, i); }
    forall e | e in q ensures e in r || e in all { NearestStays(q, d, ds, r, e); }
    forall e | e in r ensures e in q && r[e] == q[e] { assert e in q - {d}; }
    hide IsMin;
  }

  lemma NearestAt(q: map<nat, KItem>, d: nat, ds: seq<nat>, r: map<nat, KItem>, i: nat)
    requires IsMin(q.Keys, d) && NearestFirst(q - {d}, ds, r) && i < |ds| + 1
    ensures var all := [d] + ds;
            && all[i] in q && all[i] !in r
            && (forall e :: e in r ==> all[i] < e)
            && (forall h :: 0 <= h < i ==> all[h] < all[i])
  {
    var m := q - {d};
    assert forall e :: e in m ==> e in q && e != d && d < e;
    assert forall k :: 0 < k < |ds| + 1 ==> ([d] + ds)[k] == ds[k - 1];
  }

  lemma NearestStays(q: map<nat, KItem>, d: nat, ds: seq<nat>, r: map<nat, KItem>, e: nat)
    requires NearestFirst(q - {d}, ds, r) && e in q
    ensures e in r || e in [d] + ds
  {
    assert e != d ==> e in q - {d};
  }

  function Picked(q: map<nat, KItem>, ds: seq<nat>): (items: seq<KItem>)
    requires forall i :: 0 <= i < |ds| ==> ds[i] in q
    ensures |items| == |ds|
  {
    seq(|ds|, i requires 0 <= i < |ds| => q[ds[i]])
  }

  /** Queries at distances `ds` are sent: they count as being in flight, and the last
      one sets the clock for giving up. */
  ghost predicate Asks(st: Lookup, ds: seq<nat>, now: int, r: Lookup) {
    && NearestFirst(st.qfind, ds, r.qfind)
    && r.sent == st.sent + Picked(st.qfind, ds)
    && r.concurrency == st.concurrency + |ds| && r.lastFinding == st.lastFinding + |ds|
    && r.lastUpdate == (if ds == [] then st.lastUpdate else now)
    && r.target == st.target && r.trim == st.trim && r.ended == st.ended
  }

  /** The nearest candidate is asked, and is in flight from then on. */
  lemma AskNearest(st: Lookup, now: int) returns (d: nat)
    requires st.qfind != map[]
    ensures var r := Asked(st, now);
            && IsMin(st.qfind.Keys, d) && r.qfind == st.qfind - {d} && |r.qfind| < |st.qfind|
            && Asks(st, [d], now, r)
            && d in r.outqueue && (d !in st.outqueue ==> r.outqueue == st.outqueue[d := st.qfind[d]])
  {
    d := Min(st.qfind.Keys);
    assert (st.qfind - {d}).Keys == st.qfind.Keys - {d};
    NearestMore(st.qfind, d, [], st.qfind - {d});
    assert [d] + [] == [d];
    assert Picked(st.qfind, [d]) == [st.qfind[d]];
  }

  lemma AsksMore(st: Lookup, d: nat, now: int, m: Lookup, ds: seq<nat>, r: Lookup)
    requires IsMin(st.qfind.Keys, d) && m.qfind == st.qfind - {d} && Asks(st, [d], now, m) && Asks(m, ds, now, r)
    ensures Asks(st, [d] + ds, now, r)
  {
    hide NearestFirst, IsMin, Picked;
    NearestMore(st.qfind, d, ds, r.qfind);
    NearestIn(st.qfind, [d], m.qfind);
    NearestIn(m.qfind, ds, r.qfind);
    PickedMore(st.qfind, d, m.qfind, ds);
  }

  lemma NearestIn(q: map<nat, KItem>, ds: seq<nat>, r: map<nat, KItem>)
    requires NearestFirst(q, ds, r)
    ensures forall i :: 0 <= i < |ds| ==> ds[i] in q
    ensures forall x :: x in ds ==> x in q
  {
  }

  lemma PickedMore(q: map<nat, KItem>, d: nat, m: map<nat, KItem>, ds: seq<nat>)
    requires d in q && m == q - {d} && forall i :: 0 <= i < |ds| ==> ds[i] in m
    ensures forall i :: 0 <= i < |ds| + 1 ==> ([d] + ds)[i] in q
    ensures Picked(q, [d] + ds) == Picked(q, [d]) + Picked(m, ds)
  {
    var all := [d] + ds;
    assert all[0] == d && forall i :: 0 < i < |all| ==> all[i] == ds[i - 1];
  }

  /** As long as fewer than three queries are in flight the nearest candidate is
      asked, if it is within the bound. */
  lemma {:induction false} FillAsks(st: Lookup, now: int) returns (ds: seq<nat>)
    ensures var r := Filled(st, now);
            Asks(st, ds, now, r) && (r.concurrency >= CONCURRENT_REQUEST || Exhausted(r))
    decreases |st.qfind|
  {
    hide *;
    if st.concurrency >= CONCURRENT_REQUEST || Exhausted(st) {
      AsksNobody(st, now);
      ds := [];
    } else {
      FilledStep(st, now);
      var m := Asked(st, now);
      var d := AskNearest(st, now);
      ds := FillAsks(m, now);
      AsksMore(st, d, now, m, ds, Filled(m, now));
      ds := [d] + ds;
    }
  }

  lemma AsksNobody(st: Lookup, now: int)
    requires st.concurrency >= CONCURRENT_REQUEST || Exhausted(st)
    ensures Filled(st, now) == st && Asks(st, [], now, st)
  {
    assert st.sent + [] == st.sent;
  }

  // ------------------------------------------------------------------ a whole call

  lemma {:induction false} FillHears(st: Lookup, now: int)
    ensures Hears(st, [], Filled(st, now))
    decreases |st.qfind|
  {
    FillShrinks(st, now);
    if st.concurrency >= CONCURRENT_REQUEST || Exhausted(st) {
      HearsNothing(st, st);
    } else {
      var d := Min(st.qfind.Keys);
      assert (st.qfind - {d}).Keys == st.qfind.Keys - {d};
      var m := Asked(st, now);
      HearsNothing(st, m);
      FillHears(m, now);
      hide Hears;
      HearsMore(st, [], m, [], Filled(m, now));
      var none: seq<Packet> := [];
      assert none + none == none;
    }
  }

  /** A call reads `read` off the inbox and hears just what these packets say.  It
      sleeps until five seconds after its last query, with queries in flight and
      the packets read up to an empty one; the result it returns is the count of
      replies. */
  ghost predicate Tells(st: Lookup, inbox: seq<Packet>, read: seq<Packet>, c: (Lookup, seq<Packet>, Outcome)) {
    var (r, rest, outcome) := c;
    && inbox == read + rest && Hears(st, read, r)
    && (match outcome
        case Done(n) => n == r.summary
        case Sleep(until) =>
          && until == r.lastUpdate + REPLY_SECONDS && r.concurrency > 0
          && r.state == 2 && (r.concurrency >= CONCURRENT_REQUEST || r.lastFinding == 0)
          && (rest != [] ==> read != [] && read[|read| - 1].size == 0))
  }

  lemma TellsFrom(st: Lookup, a: seq<Packet>, m: Lookup, inbox: seq<Packet>, read: seq<Packet>,
                  c: (Lookup, seq<Packet>, Outcome))
    requires Hears(st, a, m) && Tells(m, inbox, read, c)
    ensures Tells(st, a + inbox, a + read, c)
  {
    HearsMore(st, a, m, read, c.0);
    hide Hears;
    assert a + (read + c.1) == a + read + c.1;
  }

  lemma TellsNone(st: Lookup, inbox: seq<Packet>, r: Lookup)
    requires Hears(st, [], r)
    ensures Tells(st, inbox, [], (r, inbox, Done(r.summary)))
  {
    hide Hears;
    var none: seq<Packet> := [];
    assert none + inbox == inbox;
  }

  lemma TellsDrained(st: Lookup, inbox: seq<Packet>, read: seq<Packet>, r: Lookup, rest: seq<Packet>)
    requires inbox == read + rest && UpToEmpty(read, rest) && Hears(st, read, r)
    ensures Tells(st, inbox, read, (r, rest, Done(r.summary)))
    ensures r.state == 2 && r.concurrency > 0 && (r.concurrency >= CONCURRENT_REQUEST || r.lastFinding == 0) ==>
              Tells(st, inbox, read, (r, rest, Sleep(r.lastUpdate + REPLY_SECONDS)))
  {
    hide Hears;
  }

  /** The switch, unfolded once. */
  lemma CalledOnce(st: Lookup, inbox: seq<Packet>, phase: nat, now: int, tnow: int)
    requires phase <= 2
    ensures var at := st.(state := phase);
            Called(st, inbox, phase, now, tnow)
            == if phase == 0 then Called(at, inbox, 1, now, tnow)
               else if phase == 1 then
                 var filled := Filled(at, now);
                 if filled.concurrency == 0 then (filled, inbox, Done(filled.summary))
                 else Called(filled, inbox, 2, now, tnow)
               else
                 var (drained, rest) := Drained(at, inbox);
                 var w := GiveUp(drained, tnow);
                 if w.concurrency < CONCURRENT_REQUEST && w.lastFinding > 0 then
                   Called(w.(lastFinding := 0), rest, 0, now, tnow)
                 else if w.concurrency > 0 then (w, rest, Sleep(w.lastUpdate + REPLY_SECONDS))
                 else (w, rest, Done(w.summary))
    ensures phase == 1 ==> var r := Filled(st.(state := phase), now); r == st.(state := phase) || |r.qfind| < |st.qfind|
    ensures phase == 2 ==>
              var at := st.(state := phase);
              var (r, rest) := Drained(at, inbox);
              (inbox == [] && r == at && rest == []) || |rest| < |inbox|
  {
    hide Filled, Drained, GiveUp;
    FillShrinks(st.(state := phase), now);
    DrainConsumes(st.(state := phase), inbox);
  }

  lemma {:induction false} CallHears(st: Lookup, inbox: seq<Packet>, phase: nat, now: int, tnow: int)
      returns (read: seq<Packet>)
    requires phase <= 2
    ensures Tells(st, inbox, read, Called(st, inbox, phase, now, tnow))
    decreases |inbox|, |st.qfind|, st.lastFinding, 2 - phase
  {
    hide *;
    var at := st.(state := phase);
    CalledOnce(st, inbox, phase, now, tnow);
    HearsNothing(st, at);
    if phase == 0 {
      read := CallHears(at, inbox, 1, now, tnow);
      TellsBehind(st, at, inbox, read, Called(at, inbox, 1, now, tnow));
    } else if phase == 1 {
      var filled := Filled(at, now);
      FillFrom(st, at, now);
      if filled.concurrency == 0 {
        TellsNone(st, inbox, filled);
        read := [];
      } else {
        read := CallHears(filled, inbox, 2, now, tnow);
        TellsBehind(st, filled, inbox, read, Called(filled, inbox, 2, now, tnow));
      }
    } else {
      var (drained, rest) := Drained(at, inbox);
      var w := GiveUp(drained, tnow);
      read := DrainTells(st, at, inbox, tnow);
      GivesUp(drained, tnow);
      if w.concurrency < CONCURRENT_REQUEST && w.lastFinding > 0 {
        var again := w.(lastFinding := 0);
        var more := CallHears(again, rest, 0, now, tnow);
        TellsFrom(st, read, again, rest, more, Called(again, rest, 0, now, tnow));
        read := read + more;
      }
    }
  }

  lemma TellsBehind(st: Lookup, m: Lookup, inbox: seq<Packet>, read: seq<Packet>, c: (Lookup, seq<Packet>, Outcome))
    requires Hears(st, [], m) && Tells(m, inbox, read, c)
    ensures Tells(st, inbox, read, c)
  {
    TellsFrom(st, [], m, inbox, read, c);
    var none: seq<Packet> := [];
    assert none + inbox == inbox && none + read == read;
  }

  lemma FillFrom(st: Lookup, at: Lookup, now: int)
    requires Hears(st, [], at)
    ensures Hears(st, [], Filled(at, now))
  {
    hide *;
    FillHears(at, now);
    HearsMore(st, [], at, [], Filled(at, now));
    var none: seq<Packet> := [];
    assert none + none == none;
  }

  lemma DrainTells(st: Lookup, at: Lookup, inbox: seq<Packet>, tnow: int) returns (read: seq<Packet>)
    requires at == st.(state := 2)
    ensures var (drained, rest) := Drained(at, inbox);
            var w := GiveUp(drained, tnow);
            && inbox == read + rest
            && Hears(st, read, w.(lastFinding := 0))
            && Tells(st, inbox, read, (w, rest, Done(w.summary)))
            && (w.concurrency > 0 && (w.concurrency >= CONCURRENT_REQUEST || w.lastFinding == 0) ==>
                  Tells(st, inbox, read, (w, rest, Sleep(w.lastUpdate + REPLY_SECONDS))))
  {
    hide *;
    var (drained, rest) := Drained(at, inbox);
    var w := GiveUp(drained, tnow);
    read := DrainHears(at, inbox);
    ReadsTell(at, inbox, read, drained, rest);
    GivesUp(drained, tnow);
    PassedOn(st, at, read, drained, w);
    PassedOn(st, at, read, drained, w.(lastFinding := 0));
    TellsDrained(st, inbox, read, w, rest);
  }

  lemma ReadsTell(st: Lookup, inbox: seq<Packet>, read: seq<Packet>, r: Lookup, rest: seq<Packet>)
    requires Reads(st, inbox, read, r, rest)
    ensures inbox == read + rest && UpToEmpty(read, rest) && Hears(st, read, r) && r.state == st.state
  {
  }

  /** Five seconds after the last query nothing is in flight any more, and nothing
      else changes. */
  lemma GivesUp(st: Lookup, tnow: int)
    ensures var w := GiveUp(st, tnow);
            if st.lastUpdate + REPLY_SECONDS <= tnow
            then w == st.(outqueue := w.outqueue, concurrency := w.concurrency) && w.outqueue == map[] && w.concurrency == 0
            else w == st
  {
  }

  lemma PassedOn(st: Lookup, at: Lookup, read: seq<Packet>, drained: Lookup, w: Lookup)
    requires at == st.(state := at.state) && Hears(at, read, drained)
    requires w.target == drained.target && w.learned == drained.learned && w.responders == drained.responders
    requires w.summary == drained.summary
    ensures Hears(st, read, w)
  {
    hide Dist, Named, Answered, Replies;
  }

  // ------------------------------------------------------------------- whole runs

  /** The packets that one call takes off its inbox. */
  ghost function ReadBy(st: Lookup, call: Call): seq<Packet>
    requires st.state <= 2
  {
    var rest := Called(st, call.inbox, st.state, call.now, call.tnow).1;
    if |rest| <= |call.inbox| then call.inbox[..|call.inbox| - |rest|] else []
  }

  lemma ReadByIs(st: Lookup, call: Call)
    requires st.state <= 2
    ensures Tells(st, call.inbox, ReadBy(st, call), Called(st, call.inbox, st.state, call.now, call.tnow))
  {
    var read := CallHears(st, call.inbox, st.state, call.now, call.tnow);
    hide Called, Hears;
    var rest := Called(st, call.inbox, st.state, call.now, call.tnow).1;
    assert (read + rest)[..|read|] == read;
  }

  /** All packets that a sequence of calls reads. */
  ghost function AllRead(target: Id, items: seq<KItem>, start: int, calls: seq<Call>): seq<Packet> {
    if calls == [] then []
    else
      var n := |calls| - 1;
      AllRead(target, items, start, calls[..n]) + ReadBy(Run(target, items, start, calls[..n]), calls[n])
  }

  ghost predicate HasHeard(st: Lookup, target: Id, items: seq<KItem>, read: seq<Packet>) {
    && st.target == target && st.learned == items + Named(read)
    && st.responders == Answered(read, target) && st.summary == Replies(read)
  }

  lemma HeardMore(st: Lookup, target: Id, items: seq<KItem>, read: seq<Packet>, more: seq<Packet>, r: Lookup)
    requires HasHeard(st, target, items, read) && Hears(st, more, r)
    ensures HasHeard(r, target, items, read + more)
  {
    NamedJoin(read, more, target);
    hide Named, Answered, Replies, Dist;
    assert items + (Named(read) + Named(more)) == items + Named(read) + Named(more);
  }

  /** The run, unfolded once. */
  lemma RunOnce(target: Id, items: seq<KItem>, start: int, calls: seq<Call>)
    requires calls != []
    ensures var n := |calls| - 1;
            var st := Run(target, items, start, calls[..n]);
            && st.state <= 2
            && Run(target, items, start, calls) == Called(st, calls[n].inbox, st.state, calls[n].now, calls[n].tnow).0
            && AllRead(target, items, start, calls) == AllRead(target, items, start, calls[..n]) + ReadBy(st, calls[n])
  {
    hide Called, ReadBy;
  }

  lemma TellsHears(st: Lookup, inbox: seq<Packet>, read: seq<Packet>, c: (Lookup, seq<Packet>, Outcome))
    requires Tells(st, inbox, read, c)
    ensures Hears(st, read, c.0)
  {
    hide Hears;
  }

  /** A lookup has heard of the items it began with and of what the packets it read
      name; it counts those that answered, and the replies. */
  lemma {:induction false} RunHears(target: Id, items: seq<KItem>, start: int, calls: seq<Call>)
    ensures HasHeard(Run(target, items, start, calls), target, items, AllRead(target, items, start, calls))
  {
    if calls == [] {
      StartHears(target, items, start);
      assert items + [] == items;
    } else {
      hide *;
      RunOnce(target, items, start, calls);
      var n := |calls| - 1;
      var st := Run(target, items, start, calls[..n]);
      var c := Called(st, calls[n].inbox, st.state, calls[n].now, calls[n].tnow);
      RunHears(target, items, start, calls[..n]);
      ReadByIs(st, calls[n]);
      TellsHears(st, calls[n].inbox, ReadBy(st, calls[n]), c);
      HeardMore(st, target, items, AllRead(target, items, start, calls[..n]), ReadBy(st, calls[n]), c.0);
    }
  }

  lemma StartHears(target: Id, items: seq<KItem>, start: int)
    ensures var st := Start(target, items, start);
            st.target == target && st.learned == items && st.responders == {} && st.summary == 0
  {
    var none := Lookup(target, 0, 0, 0, 0, start, false, 0, map[], map[], {}, {}, {}, [], {}, [], {});
    LearnAllHears(none, items);
    hide LearnAll;
    assert [] + items == items;
  }

  /** The identifier of candidate `k` was asked, under this candidate or one heard of
      earlier, or the host of that one had gone to a still earlier candidate, which
      was asked or still waits in `q`, farther than `far`, if there is a bound. */
  ghost predicate Settled(heard: seq<KItem>, sent: seq<KItem>, q: map<nat, KItem>, target: Id, bounded: bool, far: nat,
                          k: nat)
    requires k < |heard|
  {
    exists j :: 0 <= j <= k && heard[j].kadid == heard[k].kadid
                && (heard[j] in sent || HostGone(heard, sent, q, target, bounded, far, j))
  }

  ghost predicate HostGone(heard: seq<KItem>, sent: seq<KItem>, q: map<nat, KItem>, target: Id, bounded: bool, far: nat,
                           j: nat)
    requires j < |heard|
  {
    exists i :: 0 <= i < j && heard[i].host == heard[j].host
                && (heard[i] in sent || (bounded && FarWaits(heard[i], q, Dist(heard[i].kadid, target), far)))
  }

  ghost predicate FarWaits(item: KItem, q: map<nat, KItem>, d: nat, far: nat) {
    d in q && q[d] == item && far < d
  }

  /** `kept` are the closest eight of those that answered and `far` the farthest of
      them; every candidate up to there is settled, and only candidates are asked. */
  ghost predicate AllSettled(heard: seq<KItem>, sent: seq<KItem>, q: map<nat, KItem>, target: Id, answered: set<nat>,
                             kept: set<nat>, far: nat) {
    var bounded := |answered| >= K;
    && (bounded ==> IsClosest(kept, answered) && IsMax(kept, far))
    && (forall k :: 0 <= k < |heard| && (bounded ==> Dist(heard[k].kadid, target) <= far) ==>
          Settled(heard, sent, q, target, bounded, far, k))
    && (forall x :: x in sent ==> x in heard)
  }

  /** When a lookup is over it has settled every candidate among the items it began
      with and the nodes named by the packets it read, up to the distance of the
      eighth closest node that answered; it has asked nobody else, and its result is
      the number of replies. */
  lemma LookupSettlesAll(target: Id, items: seq<KItem>, start: int, calls: seq<Call>)
    requires calls != []
    requires var n := |calls| - 1;
             var st := Run(target, items, start, calls[..n]);
             Called(st, calls[n].inbox, st.state, calls[n].now, calls[n].tnow).2.Done?
    ensures var n := |calls| - 1;
            var before, st := Run(target, items, start, calls[..n]), Run(target, items, start, calls);
            var read := AllRead(target, items, start, calls);
            var heard, answered := items + Named(read), Answered(read, target);
            && Called(before, calls[n].inbox, before.state, calls[n].now, calls[n].tnow).2 == Done(Replies(read))
            && AllSettled(heard, st.sent, st.qfind, target, answered, st.mapined, st.ended)
  {
    hide *;
    var n := |calls| - 1;
    var st := Run(target, items, start, calls[..n]);
    RunOnce(target, items, start, calls);
    CallSettles(st, calls[n]);
    RunHears(target, items, start, calls);
    HeardParts(Run(target, items, start, calls), target, items, AllRead(target, items, start, calls));
  }

  lemma HeardParts(st: Lookup, target: Id, items: seq<KItem>, read: seq<Packet>)
    requires HasHeard(st, target, items, read)
    ensures st.target == target && st.learned == items + Named(read)
    ensures st.responders == Answered(read, target) && st.summary == Replies(read)
  {
  }

  /** The same of one call, in terms of the history it leaves. */
  lemma CallSettles(before: Lookup, call: Call)
    requires Inv(before) && Called(before, call.inbox, before.state, call.now, call.tnow).2.Done?
    ensures var (st, _, outcome) := Called(before, call.inbox, before.state, call.now, call.tnow);
            && outcome == Done(st.summary)
            && AllSettled(st.learned, st.sent, st.qfind, st.target, st.responders, st.mapined, st.ended)
  {
    var st := Called(before, call.inbox, before.state, call.now, call.tnow).0;
    hide *;
    TellsCount(before, call);
    StateKept(before, call);
    LookupIsComplete(before, call.inbox, call.now, call.tnow);
    StateSettles(st);
  }

  lemma StateKept(before: Lookup, call: Call)
    requires Inv(before)
    ensures before.state <= 2 && Inv(Called(before, call.inbox, before.state, call.now, call.tnow).0)
  {
    CalledKeeps(before, call.inbox, before.state, call.now, call.tnow);
  }

  lemma StateSettles(st: Lookup)
    requires Inv(st)
    requires forall k :: 0 <= k < |st.learned| && (st.trim ==> Dist(st.learned[k].kadid, st.target) <= st.ended) ==> Tried(st, k)
    requires |st.responders| < K ==> !st.trim
    requires |st.responders| >= K ==> st.trim && IsMax(st.mapined, st.ended) && IsClosest(st.mapined, st.responders)
    ensures AllSettled(st.learned, st.sent, st.qfind, st.target, st.responders, st.mapined, st.ended)
  {
    hide Settled, Dist, Tried, Inv, IsMax, IsClosest;
    SentAreHeard(st);
    var bounded := |st.responders| >= K;
    forall k | 0 <= k < |st.learned| && (bounded ==> Dist(st.learned[k].kadid, st.target) <= st.ended)
      ensures Settled(st.learned, st.sent, st.qfind, st.target, bounded, st.ended, k)
    {
      assert st.trim ==> Dist(st.learned[k].kadid, st.target) <= st.ended;
      assert Tried(st, k);
      TriedIsSettled(st, k);
    }
    assert forall x :: x in st.sent ==> x in st.learned;
  }

  lemma TellsCount(st: Lookup, call: Call)
    requires st.state <= 2
    ensures var (r, _, outcome) := Called(st, call.inbox, st.state, call.now, call.tnow);
            outcome.Done? ==> outcome == Done(r.summary)
  {
    ReadByIs(st, call);
    hide Called, Hears;
  }

  lemma SentAreHeard(st: Lookup)
    requires Inv(st)
    ensures forall x :: x in st.sent ==> x in st.learned
  {
    forall x | x in st.sent
      ensures x in st.learned
    {
      var i :| 0 <= i < |st.sent| && st.sent[i] == x;
      assert Known(st, st.sent[i]);
    }
  }

  lemma TriedIsSettled(r: Lookup, k: nat)
    requires k < |r.learned| && Tried(r, k) && (r.trim ==> |r.responders| >= K)
    ensures Settled(r.learned, r.sent, r.qfind, r.target, |r.responders| >= K, r.ended, k)
  {
    hide Dist;
    var j :| 0 <= j <= k && r.learned[j].kadid == r.learned[k].kadid && AskedOrTaken(r, j);
    if r.learned[j] !in r.sent {
      var i :| 0 <= i < j && i in r.joined && r.learned[i].host == r.learned[j].host && TookHost(r, i);
      assert HostGone(r.learned, r.sent, r.qfind, r.target, |r.responders| >= K, r.ended, j);
    }
  }

  /** A call goes to sleep only with three queries in flight, or with one at least and
      nobody left who is worth asking; it wakes five seconds after the last query. */
  lemma SleepsWhenBusy(st: Lookup, call: Call)
    requires Inv(st) && Called(st, call.inbox, st.state, call.now, call.tnow).2.Sleep?
    ensures var (r, _, outcome) := Called(st, call.inbox, st.state, call.now, call.tnow);
            && outcome.until == r.lastUpdate + 5 && r.concurrency > 0
            && (r.concurrency == CONCURRENT_REQUEST || Exhausted(r))
  {
    ReadByIs(st, call);
    StateKept(st, call);
    hide Called, Hears, Exhausted, BoundInv, OnceInv, CoverInv;
  }
}
