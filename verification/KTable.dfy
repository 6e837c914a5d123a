/** The routing table: 160 buckets, the index of the first bucket that still
    counts towards the table's tail, and one past the highest bucket used. */
module KTables {
  import opened KadId
  import opened Buckets

  const BUCKETS: nat := 160

  datatype Table = Table(buckets: seq<Bucket>, nbucket0: nat, nbucket1: nat, lastSeen: int, needPing: bool)

  function EmptyTable(): Table {
    Table(seq(BUCKETS, _ => EMPTY), 0, 1, 0, false)
  }

  /** The nodes held by buckets `lo` up to `hi`. */
  function Count(bs: seq<Bucket>, lo: nat, hi: nat): nat
    requires lo <= hi <= |bs|
    decreases hi - lo
  {
    if lo == hi then 0 else |bs[lo].nodes| + Count(bs, lo + 1, hi)
  }

  /** The first bucket from `lo` on after which at most eight nodes are left. */
  function TailStart(bs: seq<Bucket>, lo: nat, hi: nat): (j: nat)
    requires lo <= hi <= |bs|
    ensures lo <= j <= hi && Count(bs, j, hi) <= K
    ensures forall k :: lo <= k < j ==> Count(bs, k, hi) > K
    decreases hi - lo
  {
    if Count(bs, lo, hi) <= K then lo else TailStart(bs, lo + 1, hi)
  }

  function Inserted(s: Id, t: Table, item: KItem, contacted: bool, now: int): Table
    requires |t.buckets| == BUCKETS && t.nbucket0 <= t.nbucket1 <= BUCKETS
  {
    var index := Lz(Xor(s, item.kadid));
    if index == BUCKETS then t
    else
      var nbucket1 := if index + 1 > t.nbucket1 then index + 1 else t.nbucket1;
      var bucket := AfterContact(t.buckets[index], item, contacted, now);
      var buckets := t.buckets[index := bucket];
      Table(buckets, TailStart(buckets, t.nbucket0, nbucket1), nbucket1, now, t.needPing || bucket.needPing)
  }

  lemma CountStep(bs: seq<Bucket>, lo: nat, hi: nat)
    requires lo <= hi <= |bs|
    ensures Count(bs, lo, hi) == if lo == hi then 0 else |bs[lo].nodes| + Count(bs, lo + 1, hi)
    ensures TailStart(bs, lo, hi) == if Count(bs, lo, hi) <= K then lo else TailStart(bs, lo + 1, hi)
  {
  }

  /** The insertion, step by step. */
  lemma InsertedIs(s: Id, t: Table, item: KItem, contacted: bool, now: int, index: nat)
    requires |t.buckets| == BUCKETS && t.nbucket0 <= t.nbucket1 <= BUCKETS && index == Lz(Xor(s, item.kadid)) < BUCKETS
    ensures var t1 := t.(nbucket1 := if index + 1 > t.nbucket1 then index + 1 else t.nbucket1, lastSeen := now);
            var t2 := t1.(buckets := t1.buckets[index := AfterContact(t1.buckets[index], item, contacted, now)]);
            var t3 := t2.(needPing := t2.needPing || t2.buckets[index].needPing);
            Inserted(s, t, item, contacted, now) == t3.(nbucket0 := TailStart(t3.buckets, t3.nbucket0, t3.nbucket1))
  {
    hide AfterContact, TailStart, Lz;
  }

  function Failed(s: Id, t: Table, id: Id, now: int): Table
    requires |t.buckets| == BUCKETS && t.nbucket1 <= BUCKETS
  {
    var index := Lz(Xor(s, id));
    if index < t.nbucket1 then t.(buckets := t.buckets[index := AfterFailure(t.buckets[index], id, now)]) else t
  }

  /** What buckets `lo`, `lo + 1`, … offer. */
  function Upward(bs: seq<Bucket>, lo: nat, hi: nat, validate: bool, now: int): seq<KItem>
    requires hi <= |bs|
    decreases hi - lo
  {
    if lo >= hi then [] else Offered(bs[lo].nodes, validate, now) + Upward(bs, lo + 1, hi, validate, now)
  }

  /** What buckets `hi - 1`, `hi - 2`, … 0 offer. */
  function Downward(bs: seq<Bucket>, hi: nat, validate: bool, now: int): seq<KItem>
    requires hi <= |bs|
  {
    if hi == 0 then [] else Offered(bs[hi - 1].nodes, validate, now) + Downward(bs, hi - 1, validate, now)
  }

  /** Every eligible slot, in the order in which a query visits them. */
  function Visited(t: Table, offset: nat, validate: bool, now: int): seq<KItem>
    requires t.nbucket1 <= |t.buckets|
  {
    var backoff := if offset > t.nbucket1 then t.nbucket1 else offset;
    Upward(t.buckets, offset, t.nbucket1, validate, now) + Downward(t.buckets, backoff, validate, now)
  }

  function Take8(items: seq<KItem>): seq<KItem> {
    if |items| <= K then items else items[..K]
  }

  function Found(s: Id, t: Table, target: Id, validate: bool, now: int): seq<KItem>
    requires t.nbucket1 <= |t.buckets|
  {
    Take8(Visited(t, Lz(Xor(s, target)), validate, now))
  }

  // ------------------------------------------------------------- the invariant

  /** `j` is the least index after which at most eight nodes are left. */
  ghost predicate IsTailStart(bs: seq<Bucket>, j: nat) {
    && j <= |bs|
    && Count(bs, j, |bs|) <= K
    && forall k :: 0 <= k < j ==> Count(bs, k, |bs|) > K
  }

  ghost predicate TableInv(s: Id, t: Table) {
    && |t.buckets| == BUCKETS
    && t.nbucket0 <= t.nbucket1 <= BUCKETS
    && (forall i :: 0 <= i < BUCKETS ==> InBucket(s, i, t.buckets[i]))
    && (forall i :: t.nbucket1 <= i < BUCKETS ==> t.buckets[i].nodes == [])
    && IsTailStart(t.buckets, t.nbucket0)
  }

  lemma {:induction false} EmptyAbove(bs: seq<Bucket>, lo: nat, hi: nat)
    requires lo <= hi <= |bs|
    requires forall i :: hi <= i < |bs| ==> bs[i].nodes == []
    ensures Count(bs, lo, |bs|) == Count(bs, lo, hi)
    decreases |bs| - lo
  {
    if lo < hi {
      EmptyAbove(bs, lo + 1, hi);
    } else if lo < |bs| {
      EmptyAbove(bs, lo + 1, lo + 1);
    }
  }

  /** Replacing a bucket by one with at least as many nodes never lowers a count. */
  lemma {:induction false} CountGrows(bs: seq<Bucket>, index: nat, b: Bucket, lo: nat)
    requires lo <= |bs| && index < |bs| && |b.nodes| >= |bs[index].nodes|
    ensures Count(bs[index := b], lo, |bs|) >= Count(bs, lo, |bs|)
    ensures |b.nodes| == |bs[index].nodes| ==> Count(bs[index := b], lo, |bs|) == Count(bs, lo, |bs|)
    decreases |bs| - lo
  {
    if lo < |bs| {
      CountGrows(bs, index, b, lo + 1);
    }
  }

  lemma {:induction false} NothingInTable(bs: seq<Bucket>, lo: nat)
    requires lo <= |bs|
    requires forall i :: 0 <= i < |bs| ==> bs[i].nodes == []
    ensures Count(bs, lo, |bs|) == 0
    decreases |bs| - lo
  {
    if lo < |bs| {
      NothingInTable(bs, lo + 1);
    }
  }

  lemma EmptyTableInv(s: Id)
    ensures TableInv(s, EmptyTable())
  {
    NothingInTable(EmptyTable().buckets, 0);
  }

  /** An insertion keeps every node in its bucket, and the incremental size is
      again the least index after which at most eight nodes are left; it never
      moves back. */
  lemma InsertKeeps(s: Id, t: Table, item: KItem, contacted: bool, now: int)
    requires TableInv(s, t)
    ensures var r := Inserted(s, t, item, contacted, now);
            TableInv(s, r) && r.nbucket0 >= t.nbucket0 && r.nbucket1 >= t.nbucket1
  {
    hide Lz, InBucket, AfterContact;
    var index := Lz(Xor(s, item.kadid));
    if index < BUCKETS {
      var r := Inserted(s, t, item, contacted, now);
      var b := AfterContact(t.buckets[index], item, contacted, now);
      ContactKeeps(s, index, t.buckets[index], item, contacted, now);
      forall k | 0 <= k <= r.nbucket0
        ensures Count(r.buckets, k, BUCKETS) > K <==> k < r.nbucket0
      {
        if k < t.nbucket0 {
          CountGrows(t.buckets, index, b, k);
        } else {
          EmptyAbove(r.buckets, k, r.nbucket1);
        }
      }
    }
  }

  lemma FailureKeepsTable(s: Id, t: Table, id: Id, now: int)
    requires TableInv(s, t)
    ensures TableInv(s, Failed(s, t, id, now))
  {
    hide Lz, InBucket, AfterFailure;
    var index := Lz(Xor(s, id));
    if index < t.nbucket1 {
      var b := AfterFailure(t.buckets[index], id, now);
      FailureKeeps(s, index, t.buckets[index], id, now);
      var r := Failed(s, t, id, now);
      assert r.buckets == t.buckets[index := b];
      forall k | 0 <= k <= t.nbucket0
        ensures Count(r.buckets, k, |r.buckets|) == Count(t.buckets, k, |t.buckets|)
      {
        CountGrows(t.buckets, index, b, k);
      }
    }
  }

  datatype Op = Insert(item: KItem, contacted: bool, now: int) | Fail(id: Id, now: int)

  function Step(s: Id, t: Table, op: Op): Table
    requires |t.buckets| == BUCKETS && t.nbucket0 <= t.nbucket1 <= BUCKETS
  {
    match op
    case Insert(item, contacted, now) => Inserted(s, t, item, contacted, now)
    case Fail(id, now) => Failed(s, t, id, now)
  }

  /** The table after a sequence of contacts and failures. */
  ghost function Run(s: Id, ops: seq<Op>): (t: Table)
    ensures TableInv(s, t)
  {
    if ops == [] then
      EmptyTableInv(s);
      EmptyTable()
    else
      var t := Run(s, ops[..|ops| - 1]);
      StepKeeps(s, t, ops[|ops| - 1]);
      Step(s, t, ops[|ops| - 1])
  }

  lemma StepKeeps(s: Id, t: Table, op: Op)
    requires TableInv(s, t)
    ensures TableInv(s, Step(s, t, op))
  {
    hide TableInv;
    match op
    case Insert(item, contacted, now) => InsertKeeps(s, t, item, contacted, now);
    case Fail(id, now) => FailureKeepsTable(s, t, id, now);
  }

  // -------------------------------------------------- answers are near-optimal

  lemma {:induction false} OfferedAreNodes(nodes: seq<KNode>, validate: bool, now: int, p: nat) returns (k: nat)
    requires p < |Offered(nodes, validate, now)|
    ensures k < |nodes| && Eligible(nodes[k], validate, now)
    ensures Offered(nodes, validate, now)[p] == nodes[k].Item()
  {
    var last := |nodes| - 1;
    var rest := Offered(nodes[..last], validate, now);
    if p < |rest| {
      k := OfferedAreNodes(nodes[..last], validate, now, p);
    } else {
      k := last;
    }
  }

  lemma OfferedInBucket(s: Id, i: nat, b: Bucket, validate: bool, now: int, p: nat)
    requires InBucket(s, i, b) && p < |Offered(b.nodes, validate, now)|
    ensures Lz(Xor(s, Offered(b.nodes, validate, now)[p].kadid)) == i
  {
    var k := OfferedAreNodes(b.nodes, validate, now, p);
    assert InPlace(s, i, b.nodes[k]);
  }

  lemma {:induction false} UpwardIndex(s: Id, bs: seq<Bucket>, lo: nat, hi: nat, validate: bool, now: int, p: nat)
    requires hi <= |bs| && forall i :: 0 <= i < |bs| ==> InBucket(s, i, bs[i])
    requires p < |Upward(bs, lo, hi, validate, now)|
    ensures Lz(Xor(s, Upward(bs, lo, hi, validate, now)[p].kadid)) >= lo
    decreases hi - lo
  {
    hide Lz, InBucket, Offered;
    var first := Offered(bs[lo].nodes, validate, now);
    if p < |first| {
      OfferedInBucket(s, lo, bs[lo], validate, now, p);
    } else {
      UpwardIndex(s, bs, lo + 1, hi, validate, now, p - |first|);
    }
  }

  lemma {:induction false} DownwardIndex(s: Id, bs: seq<Bucket>, hi: nat, validate: bool, now: int, p: nat, q: nat)
    requires hi <= |bs| && forall i :: 0 <= i < |bs| ==> InBucket(s, i, bs[i])
    requires p <= q < |Downward(bs, hi, validate, now)|
    ensures var items := Downward(bs, hi, validate, now);
            Lz(Xor(s, items[q].kadid)) <= Lz(Xor(s, items[p].kadid)) < hi
  {
    hide Lz, InBucket, Offered;
    var first := Offered(bs[hi - 1].nodes, validate, now);
    if q < |first| {
      OfferedInBucket(s, hi - 1, bs[hi - 1], validate, now, q);
    } else {
      DownwardIndex(s, bs, hi - 1, validate, now, if p < |first| then q - |first| else p - |first|, q - |first|);
    }
    if p < |first| {
      OfferedInBucket(s, hi - 1, bs[hi - 1], validate, now, p);
    }
  }

  /** Later slots share no longer a prefix with the target than earlier ones,
      once the eight slots of the target's own bucket are behind. */
  lemma VisitedByPrefix(s: Id, t: Table, target: Id, validate: bool, now: int, i: nat, j: nat)
    requires TableInv(s, t)
    requires var items := Visited(t, Lz(Xor(s, target)), validate, now);
             i < K <= j < |items|
    ensures var items := Visited(t, Lz(Xor(s, target)), validate, now);
            && Lz(Xor(items[j].kadid, target)) <= Lz(Xor(items[i].kadid, target))
            && Lz(Xor(items[j].kadid, target)) < ID_BITS
  {
    var o := Lz(Xor(s, target));
    if j < |Upward(t.buckets, o, t.nbucket1, validate, now)| {
      UpwardByPrefix(s, t, target, validate, now, i, j);
    } else {
      DownwardByPrefix(s, t, target, validate, now, i, j);
    }
    hide *;
  }

  lemma UpwardByPrefix(s: Id, t: Table, target: Id, validate: bool, now: int, i: nat, j: nat)
    requires TableInv(s, t)
    requires i < K <= j < |Upward(t.buckets, Lz(Xor(s, target)), t.nbucket1, validate, now)|
    ensures var items := Visited(t, Lz(Xor(s, target)), validate, now);
            && j < |items|
            && Lz(Xor(items[j].kadid, target)) <= Lz(Xor(items[i].kadid, target))
            && Lz(Xor(items[j].kadid, target)) < ID_BITS
  {
    hide Lz, Offered;
    var o := Lz(Xor(s, target));
    var up := Upward(t.buckets, o, t.nbucket1, validate, now);
    var own := Offered(t.buckets[o].nodes, validate, now);
    IndexSeenFrom(s, up[i].kadid, target);
    IndexSeenFrom(s, up[j].kadid, target);
    assert |own| <= K by {
      assert InBucket(s, o, t.buckets[o]);
    }
    UpwardIndex(s, t.buckets, o + 1, t.nbucket1, validate, now, j - |own|);
    UpwardIndex(s, t.buckets, o, t.nbucket1, validate, now, i);
    hide InBucket;
  }

  lemma DownwardByPrefix(s: Id, t: Table, target: Id, validate: bool, now: int, i: nat, j: nat)
    requires TableInv(s, t)
    requires var o := Lz(Xor(s, target));
             i < K <= j < |Visited(t, o, validate, now)| && j >= |Upward(t.buckets, o, t.nbucket1, validate, now)|
    ensures var items := Visited(t, Lz(Xor(s, target)), validate, now);
            && Lz(Xor(items[j].kadid, target)) <= Lz(Xor(items[i].kadid, target))
            && Lz(Xor(items[j].kadid, target)) < ID_BITS
  {
    hide Lz, Offered;
    var o := Lz(Xor(s, target));
    var up := Upward(t.buckets, o, t.nbucket1, validate, now);
    var backoff := if o > t.nbucket1 then t.nbucket1 else o;
    var items := Visited(t, o, validate, now);
    IndexSeenFrom(s, items[i].kadid, target);
    IndexSeenFrom(s, items[j].kadid, target);
    DownwardIndex(s, t.buckets, backoff, validate, now, if i < |up| then j - |up| else i - |up|, j - |up|);
    if i < |up| {
      UpwardIndex(s, t.buckets, o, t.nbucket1, validate, now, i);
    }
  }

  /** The eligible slots of the whole table. */
  function EligibleSlots(bs: seq<Bucket>, validate: bool, now: int): multiset<KItem> {
    if bs == [] then multiset{}
    else EligibleSlots(bs[..|bs| - 1], validate, now) + multiset(Offered(bs[|bs| - 1].nodes, validate, now))
  }

  lemma SlotsOnce(bs: seq<Bucket>, k: nat, validate: bool, now: int)
    requires k < |bs|
    ensures EligibleSlots(bs[..k + 1], validate, now)
         == EligibleSlots(bs[..k], validate, now) + multiset(Offered(bs[k].nodes, validate, now))
  {
    hide Offered;
    assert bs[..k + 1][..k] == bs[..k];
  }

  lemma {:induction false} DownwardSlots(bs: seq<Bucket>, hi: nat, validate: bool, now: int)
    requires hi <= |bs|
    ensures multiset(Downward(bs, hi, validate, now)) == EligibleSlots(bs[..hi], validate, now)
  {
    hide Offered;
    if hi > 0 {
      SlotsOnce(bs, hi - 1, validate, now);
      DownwardSlots(bs, hi - 1, validate, now);
      hide EligibleSlots;
    }
  }

  lemma {:induction false} UpwardSlots(bs: seq<Bucket>, lo: nat, hi: nat, validate: bool, now: int)
    requires lo <= hi <= |bs|
    ensures EligibleSlots(bs[..lo], validate, now) + multiset(Upward(bs, lo, hi, validate, now))
         == EligibleSlots(bs[..hi], validate, now)
    decreases hi - lo
  {
    hide Offered, EligibleSlots;
    if lo < hi {
      SlotsOnce(bs, lo, validate, now);
      UpwardSlots(bs, lo + 1, hi, validate, now);
    }
  }

  lemma {:induction false} EmptySlots(bs: seq<Bucket>, lo: nat, validate: bool, now: int)
    requires lo <= |bs| && forall i :: lo <= i < |bs| ==> bs[i].nodes == []
    ensures EligibleSlots(bs, validate, now) == EligibleSlots(bs[..lo], validate, now)
    decreases |bs| - lo
  {
    hide EligibleSlots;
    if lo < |bs| {
      EmptySlots(bs, lo + 1, validate, now);
      SlotsOnce(bs, lo, validate, now);
    } else {
      assert bs[..lo] == bs;
    }
  }

  /** A query visits every eligible slot of the table exactly once. */
  lemma VisitedIsEverything(s: Id, t: Table, offset: nat, validate: bool, now: int)
    requires TableInv(s, t)
    ensures multiset(Visited(t, offset, validate, now)) == EligibleSlots(t.buckets, validate, now)
  {
    hide Offered, InBucket;
    EmptySlots(t.buckets, t.nbucket1, validate, now);
    if offset <= t.nbucket1 {
      UpwardSlots(t.buckets, offset, t.nbucket1, validate, now);
      DownwardSlots(t.buckets, offset, validate, now);
    } else {
      DownwardSlots(t.buckets, t.nbucket1, validate, now);
    }
  }

  /** A query returns min(8, eligible) slots, and whatever it leaves out is more
      than half as far from the target as anything it returns. */
  lemma FoundIsNearOptimal(s: Id, t: Table, target: Id, validate: bool, now: int) returns (omitted: seq<KItem>)
    requires TableInv(s, t)
    ensures var found := Found(s, t, target, validate, now);
            && multiset(found) + multiset(omitted) == EligibleSlots(t.buckets, validate, now)
            && |found| <= K
            && (omitted != [] ==> |found| == K)
            && forall a, b :: a in found && b in omitted ==> Dist(a.kadid, target) < 2 * Dist(b.kadid, target)
  {
    hide Lz, InBucket, Offered, EligibleSlots, Upward, Downward;
    var o := Lz(Xor(s, target));
    var items := Visited(t, o, validate, now);
    var found := Found(s, t, target, validate, now);
    VisitedIsEverything(s, t, o, validate, now);
    omitted := items[|found|..];
    assert items == found + omitted;
    forall a, b | a in found && b in omitted
      ensures Dist(a.kadid, target) < 2 * Dist(b.kadid, target)
    {
      var i :| 0 <= i < |found| && found[i] == a;
      var j :| 0 <= j < |omitted| && omitted[j] == b;
      VisitedByPrefix(s, t, target, validate, now, i, |found| + j);
      LongerPrefixIsNear(a.kadid, b.kadid, target);
    }
  }

  // ------------------------------------------------------------------ the class

  method NewBuckets() returns (bs: array<KBucket>)
    ensures bs.Length == BUCKETS && fresh(bs)
    ensures forall j :: 0 <= j < BUCKETS ==> bs[j].Valid() && bs[j].State() == EMPTY
    ensures forall j, k :: 0 <= j < k < BUCKETS ==> KTable.Apart(bs[j], bs[k])
  {
    var first := new KBucket();
    bs := new KBucket[BUCKETS](_ => first);
    for i := 1 to BUCKETS
      invariant fresh(bs)
      invariant forall j :: 0 <= j < i ==>
        fresh(bs[j]) && fresh(bs[j].knodes) && fresh(bs[j].backups) && bs[j].Valid() && bs[j].State() == EMPTY
      invariant forall j, k :: 0 <= j < k < i ==> KTable.Apart(bs[j], bs[k])
    {
      bs[i] := new KBucket();
    }
  }

  class KTable {
    const tableId: Id
    var nbucket0: nat
    var nbucket1: nat
    const buckets: array<KBucket>
    var lastSeen: int
    var needPing: bool

    static ghost predicate Apart(a: KBucket, b: KBucket) {
      && a != b
      && a.knodes != b.knodes && a.knodes != b.backups
      && a.backups != b.knodes && a.backups != b.backups
    }

    ghost function Parts(): set<object>
      reads buckets
    {
      (set i | 0 <= i < buckets.Length :: buckets[i] as object)
      + (set i | 0 <= i < buckets.Length :: buckets[i].knodes as object)
      + (set i | 0 <= i < buckets.Length :: buckets[i].backups as object)
    }

    ghost predicate Valid()
      reads this, buckets, Parts()
    {
      && buckets.Length == BUCKETS
      && nbucket0 <= nbucket1 <= BUCKETS
      && (forall i :: 0 <= i < BUCKETS ==> buckets[i].Valid())
      && (forall i, j :: 0 <= i < j < BUCKETS ==> Apart(buckets[i], buckets[j]))
    }

    ghost function State(): (t: Table)
      requires Valid()
      reads this, buckets, Parts()
      ensures |t.buckets| == BUCKETS && t.nbucket0 == nbucket0 <= t.nbucket1 == nbucket1 <= BUCKETS
    {
      Table(seq(BUCKETS, i requires 0 <= i < BUCKETS && Valid() reads this, buckets, Parts() => buckets[i].State()),
            nbucket0, nbucket1, lastSeen, needPing)
    }

    constructor (id: Id)
      ensures Valid() && State() == EmptyTable()
      ensures tableId == id
    {
      tableId := id;
      nbucket0, nbucket1, lastSeen, needPing := 0, 1, 0, false;
      var bs := NewBuckets();
      buckets := bs;
    }

    /** Hands a contact to one bucket; the other 159 stay as they are. */
    method ContactBucket(index: nat, item: KItem, contacted: bool, now: int)
      requires Valid() && index < BUCKETS
      modifies Parts()
      ensures Valid() && Parts() == old(Parts())
      ensures State() == var was := old(State());
                         was.(buckets := was.buckets[index := AfterContact(was.buckets[index], item, contacted, now)])
    {
      hide AfterContact, KBucket.State;
      ghost var was := State().buckets;
      assert forall i :: 0 <= i < BUCKETS && i != index ==> Apart(buckets[i], buckets[index]);
      buckets[index].UpdateContact(item, contacted, now);
      assert forall i :: 0 <= i < BUCKETS && i != index ==> buckets[i].State() == was[i];
    }

    method FailBucket(index: nat, id: Id, now: int)
      requires Valid() && index < BUCKETS
      modifies Parts()
      ensures Valid() && Parts() == old(Parts())
      ensures State() == var was := old(State());
                         was.(buckets := was.buckets[index := AfterFailure(was.buckets[index], id, now)])
    {
      hide AfterFailure, KBucket.State;
      ghost var was := State().buckets;
      assert forall i :: 0 <= i < BUCKETS && i != index ==> Apart(buckets[i], buckets[index]);
      buckets[index].FailedContact(id, now);
      assert forall i :: 0 <= i < BUCKETS && i != index ==> buckets[i].State() == was[i];
    }

    lemma NodeCount(i: nat)
      requires Valid() && i < BUCKETS
      ensures buckets.Length == BUCKETS && |State().buckets[i].nodes| == buckets[i].nknode
    {
    }

    method MoveTail()
      requires Valid() && nbucket0 < nbucket1
      modifies this`nbucket0
      ensures Valid() && Parts() == old(Parts()) && nbucket0 == old(nbucket0) + 1
      ensures State() == old(State()).(nbucket0 := nbucket0)
    {
      nbucket0 := nbucket0 + 1;
    }

    method AdvanceTail()
      requires Valid()
      modifies this`nbucket0
      ensures Valid() && Parts() == old(Parts())
      ensures State() == var was := old(State());
                         was.(nbucket0 := TailStart(was.buckets, was.nbucket0, was.nbucket1))
    {
      hide Valid, State, Parts, Count, TailStart;
      ghost var was := State();
      ghost var bs := was.buckets;
      var count := 0;
      for i := nbucket0 to nbucket1
        invariant nbucket0 == old(nbucket0) && Valid() && State() == was && Parts() == old(Parts())
        invariant count + Count(bs, i, nbucket1) == Count(bs, nbucket0, nbucket1)
      {
        NodeCount(i);
        CountStep(bs, i, nbucket1);
        count := count + buckets[i].nknode;
      }
      CountStep(bs, nbucket1, nbucket1);
      while count > K
        invariant Valid() && State() == was.(nbucket0 := nbucket0) && Parts() == old(Parts())
        invariant nbucket0 <= nbucket1 && count == Count(bs, nbucket0, nbucket1)
        invariant TailStart(bs, nbucket0, nbucket1) == TailStart(bs, old(nbucket0), nbucket1)
        decreases nbucket1 - nbucket0
      {
        NodeCount(nbucket0);
        CountStep(bs, nbucket0, nbucket1);
        count := count - buckets[nbucket0].nknode;
        MoveTail();
      }
      CountStep(bs, nbucket0, nbucket1);
    }

    method NotePing(index: nat)
      requires Valid() && index < BUCKETS
      modifies this`needPing
      ensures Valid() && Parts() == old(Parts())
      ensures State() == old(State()).(needPing := old(State()).needPing || old(State()).buckets[index].needPing)
    {
      assert State().buckets[index].needPing == buckets[index].needPing;
      if buckets[index].needPing {
        needPing := true;
      }
    }

    method NoteIndex(index: nat, now: int)
      requires Valid() && index < BUCKETS
      modifies this`nbucket1, this`lastSeen
      ensures Valid() && Parts() == old(Parts())
      ensures State() == var was := old(State());
                         was.(nbucket1 := if index + 1 > was.nbucket1 then index + 1 else was.nbucket1, lastSeen := now)
    {
      ghost var bs := State().buckets;
      if index + 1 > nbucket1 {
        nbucket1 := index + 1;
      }
      lastSeen := now;
      assert State().buckets == bs;
    }

    method InsertNode(item: KItem, contacted: bool, now: int)
      requires Valid()
      modifies this, Parts()
      ensures Valid()
      ensures State() == Inserted(tableId, old(State()), item, contacted, now)
    {
      ghost var t := State();
      var index := Bit1IndexOf(tableId, item.kadid);
      assert Valid() && State() == t && Parts() == old(Parts());
      if index + 1 > BUCKETS {
        assert t == Inserted(tableId, t, item, contacted, now);
        return;
      }
      InsertedIs(tableId, t, item, contacted, now, index);
      hide *;
      NoteIndex(index, now);
      ghost var t1 := State();
      ContactBucket(index, item, contacted, now);
      ghost var t2 := State();
      NotePing(index);
      ghost var t3 := State();
      AdvanceTail();
      assert t1 == t.(nbucket1 := if index + 1 > t.nbucket1 then index + 1 else t.nbucket1, lastSeen := now);
      assert t2 == t1.(buckets := t1.buckets[index := AfterContact(t1.buckets[index], item, contacted, now)]);
      assert t3 == t2.(needPing := t2.needPing || t2.buckets[index].needPing);
    }

    method FailedContact(item: KItem, now: int)
      requires Valid()
      modifies this, Parts()
      ensures Valid()
      ensures State() == Failed(tableId, old(State()), item.kadid, now)
    {
      hide AfterFailure, Lz, KBucket.State, Parts;
      var index := Bit1IndexOf(tableId, item.kadid);
      if index < nbucket1 {
        FailBucket(index, item.kadid, now);
      }
    }

    static method CopyItems(dst: array<KItem>, at: nat, src: array<KItem>, n: nat)
      requires dst != src && at + n <= dst.Length && n <= src.Length
      modifies dst
      ensures dst[..at + n] == old(dst[..at]) + src[..n]
    {
      for k := 0 to n
        invariant dst[..at + k] == old(dst[..at]) + src[..k]
      {
        dst[at + k] := src[k];
      }
    }

    /** Appends what one bucket offers to the `count` items found so far. */
    method Gather(index: nat, items: array<KItem>, vitems: array<KItem>, count: nat, validate: bool, now: int)
      returns (total: nat)
      requires Valid() && index < BUCKETS && items != vitems && items.Length >= K && vitems.Length >= K && count <= K
      modifies items, vitems
      ensures Valid() && State() == old(State())
      ensures total <= K
      ensures items[..total] == Take8(old(items[..count]) + Offered(State().buckets[index].nodes, validate, now))
    {
      hide Offered;
      var n := buckets[index].FindNodes(vitems, validate, now);
      if n + count >= K {
        CopyItems(items, count, vitems, K - count);
        total := K;
      } else {
        CopyItems(items, count, vitems, n);
        total := count + n;
      }
    }

    method FindNodes(target: Id, items: array<KItem>, validate: bool, now: int) returns (count: nat)
      requires Valid() && items.Length >= K
      modifies items
      ensures count <= K
      ensures items[..count] == Found(tableId, State(), target, validate, now)
    {
      hide Offered, State, Take8, Upward, Lz;
      var offset := Bit1IndexOf(tableId, target);
      var vitems := new KItem[K];
      var backoff := if offset > nbucket1 then nbucket1 else offset;
      ghost var t := State();
      ghost var bs := t.buckets;
      ghost var down := Downward(bs, backoff, validate, now);
      count := GatherUp(offset, items, vitems, down, validate, now);
      var i := backoff;
      while i > 0
        invariant 0 <= i <= backoff && count <= K && Valid() && State() == t
        invariant Take8(items[..count] + Downward(bs, i, validate, now)) == Found(tableId, t, target, validate, now)
      {
        i := i - 1;
        TakeMore(items[..count], Offered(bs[i].nodes, validate, now), Downward(bs, i, validate, now));
        count := Gather(i, items, vitems, count, validate, now);
        if count == K {
          break;
        }
      }
      if count == K {
        TakeFull(items[..count], Downward(bs, i, validate, now), []);
      }
      TakeShort(items[..count]);
    }

    /** The upward half of a query; `rest` is what comes after it. */
    method GatherUp(offset: nat, items: array<KItem>, vitems: array<KItem>, ghost rest: seq<KItem>,
                    validate: bool, now: int)
      returns (count: nat)
      requires Valid() && items != vitems && items.Length >= K && vitems.Length >= K
      modifies items, vitems
      ensures Valid() && State() == old(State())
      ensures count <= K
      ensures Take8(items[..count] + rest)
           == Take8(Upward(State().buckets, offset, nbucket1, validate, now) + rest)
    {
      hide Offered, State, Take8, Upward;
      count := 0;
      ghost var t := State();
      ghost var bs := t.buckets;
      ghost var found := Take8(Upward(bs, offset, nbucket1, validate, now) + rest);
      assert items[..0] + (Upward(bs, offset, nbucket1, validate, now) + rest)
          == Upward(bs, offset, nbucket1, validate, now) + rest;
      var i := offset;
      while i < nbucket1
        invariant count <= K && Valid() && State() == t
        invariant Take8(items[..count] + (Upward(bs, i, nbucket1, validate, now) + rest)) == found
      {
        ghost var after := Upward(bs, i + 1, nbucket1, validate, now);
        UpwardStep(bs, i, nbucket1, validate, now, rest);
        TakeMore(items[..count], Offered(bs[i].nodes, validate, now), after + rest);
        count := Gather(i, items, vitems, count, validate, now);
        i := i + 1;
        if count == K {
          break;
        }
      }
      if i >= nbucket1 {
        UpwardEnd(bs, i, nbucket1, validate, now, rest);
      } else {
        TakeFull(items[..count], Upward(bs, i, nbucket1, validate, now) + rest, rest);
      }
    }
  }

  lemma UpwardStep(bs: seq<Bucket>, i: nat, hi: nat, validate: bool, now: int, rest: seq<KItem>)
    requires i < hi <= |bs|
    ensures Upward(bs, i, hi, validate, now) + rest
         == Offered(bs[i].nodes, validate, now) + (Upward(bs, i + 1, hi, validate, now) + rest)
  {
  }

  lemma UpwardEnd(bs: seq<Bucket>, i: nat, hi: nat, validate: bool, now: int, rest: seq<KItem>)
    requires hi <= i && hi <= |bs|
    ensures Upward(bs, i, hi, validate, now) + rest == rest
  {
  }

  lemma TakeShort(items: seq<KItem>)
    requires |items| <= K
    ensures Take8(items + []) == items
  {
    assert items + [] == items;
  }

  lemma TakeFull(items: seq<KItem>, more: seq<KItem>, other: seq<KItem>)
    requires |items| == K
    ensures Take8(items + more) == Take8(items + other)
  {
  }

  /** Cutting to eight after each bucket is cutting to eight at the end. */
  lemma TakeMore(items: seq<KItem>, next: seq<KItem>, rest: seq<KItem>)
    ensures Take8(items + (next + rest)) == Take8(Take8(items + next) + rest)
  {
    assert items + (next + rest) == (items + next) + rest;
  }
}
