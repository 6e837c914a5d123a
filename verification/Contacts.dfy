/** What a contact, and a failure, does to a bucket and to the table: which slots
    change, and that a contact with room for it is found again. */
module Contacts {
  import opened KadId
  import opened Buckets
  import opened KTables

  // ------------------------------------------------------------------- nodes

  /** A node that answered is bad after three failures, one that never did after two;
      it is in doubt when not bad and either unheard or fifteen minutes silent.  So a
      query that validates takes those heard from in time, and, of the unheard, one
      with exactly two failures. */
  lemma StandingOf(n: KNode, now: int)
    ensures n.IsBad() <==> n.failed >= if n.lastSeen == 0 then 2 else 3
    ensures n.IsDoubt(now) <==> !n.IsBad() && (n.lastSeen == 0 || now - n.lastSeen > 900)
    ensures n.IsGood(now) <==> if n.lastSeen == 0 then n.failed == 2 else n.failed < 3 && now - n.lastSeen <= 900
    ensures n.Item().kadid == n.ident && n.Item().host == n.address && n.Item().port == n.port
  {
  }

  /** A node as it is first noted: its identity is that of the contact, nothing has
      failed, and it has been heard from just when it answered. */
  ghost predicate Fresh(n: KNode, item: KItem, contacted: bool, now: int) {
    && n.Item() == item && n.failed == 0 && n.birthday == now
    && n.lastSeen == (if contacted then now else 0)
  }

  /** A node that is met again, perhaps at a new address. */
  ghost predicate Renewed(was: KNode, n: KNode, item: KItem, contacted: bool, now: int) {
    && n.Item() == item && n.birthday == was.birthday
    && n.failed == (if contacted then 0 else was.failed)
    && n.lastSeen == (if contacted then now else was.lastSeen)
  }

  ghost predicate OnlySlot(a: seq<KNode>, b: seq<KNode>, k: nat) {
    |b| == |a| && forall j :: 0 <= j < |a| && j != k ==> b[j] == a[j]
  }

  /** Slot `k` is the first that holds the identifier. */
  ghost predicate FirstOf(nodes: seq<KNode>, id: Id, k: nat) {
    k < |nodes| && nodes[k].ident == id && forall j :: 0 <= j < k ==> nodes[j].ident != id
  }

  ghost predicate Absent(nodes: seq<KNode>, id: Id) {
    forall j :: 0 <= j < |nodes| ==> nodes[j].ident != id
  }

  ghost predicate FirstBad(nodes: seq<KNode>, k: nat) {
    k < |nodes| && nodes[k].IsBad() && forall j :: 0 <= j < k ==> !nodes[j].IsBad()
  }

  ghost predicate NoneBad(nodes: seq<KNode>) {
    forall j :: 0 <= j < |nodes| ==> !nodes[j].IsBad()
  }

  // ----------------------------------------------------------------- a bucket

  /** A known identifier renews its slot. */
  lemma KnownContact(b: Bucket, item: KItem, contacted: bool, now: int, k: nat)
    requires FirstOf(b.nodes, item.kadid, k)
    ensures var r := AfterContact(b, item, contacted, now);
            && OnlySlot(b.nodes, r.nodes, k) && Renewed(b.nodes[k], r.nodes[k], item, contacted, now)
            && r.backups == b.backups && r.needPing == b.needPing && r.lastSeen == if contacted then now else b.lastSeen
  {
    assert SlotOf(b.nodes, item.kadid) == k;
    hide SlotOf, BadSlot, HasDoubt;
  }

  /** A new one takes the next slot while there is one. */
  lemma NewContact(b: Bucket, item: KItem, contacted: bool, now: int)
    requires Absent(b.nodes, item.kadid) && |b.nodes| < K
    ensures var r := AfterContact(b, item, contacted, now);
            && |r.nodes| == |b.nodes| + 1 && r.nodes[..|b.nodes|] == b.nodes
            && Fresh(r.nodes[|b.nodes|], item, contacted, now)
            && r.backups == b.backups && r.needPing == b.needPing && r.lastSeen == if contacted then now else b.lastSeen
  {
    assert SlotOf(b.nodes, item.kadid) == |b.nodes|;
    hide SlotOf, BadSlot, HasDoubt;
  }

  /** In a full bucket it takes the slot of the first bad node. */
  lemma ReplacingContact(b: Bucket, item: KItem, contacted: bool, now: int, k: nat)
    requires Absent(b.nodes, item.kadid) && |b.nodes| >= K && FirstBad(b.nodes, k)
    ensures var r := AfterContact(b, item, contacted, now);
            && OnlySlot(b.nodes, r.nodes, k) && Fresh(r.nodes[k], item, contacted, now)
            && r.backups == b.backups && r.needPing == b.needPing && r.lastSeen == if contacted then now else b.lastSeen
  {
    assert SlotOf(b.nodes, item.kadid) == |b.nodes| && BadSlot(b.nodes) == k;
    hide SlotOf, BadSlot, HasDoubt;
  }

  /** With no bad node either, it goes to the backups and asks for pings as long as
      some node is in doubt; with all nodes good the backups are given up. */
  lemma SpareContact(b: Bucket, item: KItem, contacted: bool, now: int)
    requires Absent(b.nodes, item.kadid) && |b.nodes| >= K && NoneBad(b.nodes)
    ensures var r := AfterContact(b, item, contacted, now);
            var doubt := exists j :: 0 <= j < |b.nodes| && b.nodes[j].IsDoubt(now);
            && r.nodes == b.nodes && r.lastSeen == b.lastSeen
            && r.needPing == (b.needPing || doubt)
            && (if doubt then r.backups == AfterBackup(b.backups, item, contacted, now) else r.backups == [])
  {
    assert SlotOf(b.nodes, item.kadid) == |b.nodes| && BadSlot(b.nodes) == |b.nodes|;
    hide SlotOf, BadSlot, AfterBackup;
  }

  /** A known backup is only touched, and keeps its address. */
  lemma KnownBackup(backups: seq<KNode>, item: KItem, contacted: bool, now: int, k: nat)
    requires FirstOf(backups, item.kadid, k)
    ensures var r := AfterBackup(backups, item, contacted, now);
            && OnlySlot(backups, r, k) && Renewed(backups[k], r[k], backups[k].Item(), contacted, now)
  {
    assert SlotOf(backups, item.kadid) == k;
    hide SlotOf, Stalest;
  }

  lemma NewBackup(backups: seq<KNode>, item: KItem, contacted: bool, now: int)
    requires Absent(backups, item.kadid) && |backups| < K
    ensures var r := AfterBackup(backups, item, contacted, now);
            |r| == |backups| + 1 && r[..|backups|] == backups && Fresh(r[|backups|], item, contacted, now)
  {
    assert SlotOf(backups, item.kadid) == |backups|;
    hide SlotOf, Stalest;
  }

  /** The slot that a new backup would take of eight: of those seen before `now` the
      first of the least recently seen, and the first slot when there is none. */
  ghost predicate StalestSlot(backups: seq<KNode>, now: int, k: nat) {
    && k < |backups|
    && (if exists j :: 0 <= j < |backups| && backups[j].lastSeen < now then
          && backups[k].lastSeen < now
          && (forall j :: 0 <= j < |backups| ==> backups[k].lastSeen <= backups[j].lastSeen)
          && (forall j :: 0 <= j < k ==> backups[k].lastSeen < backups[j].lastSeen)
        else k == 0)
  }

  lemma {:induction false} StalestIs(backups: seq<KNode>, n: nat, now: int)
    requires 0 < n <= |backups|
    ensures StalestSlot(backups[..n], now, Stalest(backups, n, now))
  {
    if n > 1 {
      StalestIs(backups, n - 1, now);
      var front, all, k := backups[..n - 1], backups[..n], Stalest(backups, n - 1, now);
      assert forall j :: 0 <= j < n - 1 ==> front[j] == all[j];
      assert all[n - 1] == backups[n - 1];
    }
  }

  /** A ninth takes that slot if it answered, or if its holder never did. */
  lemma NinthBackup(backups: seq<KNode>, item: KItem, contacted: bool, now: int, k: nat)
    requires Absent(backups, item.kadid) && |backups| >= K && StalestSlot(backups, now, k)
    ensures var r := AfterBackup(backups, item, contacted, now);
            if contacted || backups[k].lastSeen == 0 then OnlySlot(backups, r, k) && Fresh(r[k], item, contacted, now)
            else r == backups
  {
    assert SlotOf(backups, item.kadid) == |backups|;
    StalestIs(backups, |backups|, now);
    assert backups[..|backups|] == backups;
    hide SlotOf, Stalest;
  }

  // ----------------------------------------------------------------- a failure

  /** What stays of the backups, slot by slot: no emptied one, and not the one that
      failed. */
  lemma WithoutOne(n: KNode, id: Id)
    ensures Without([n], id) == (if n.ident == id || IsNull(n.ident) then [] else [n]) && Without([], id) == []
  {
    hide IsNull;
    assert [n][..0] == [];
  }

  lemma WithoutNext(a: seq<KNode>, n: KNode, id: Id)
    ensures Without(a + [n], id) == Without(a, id) + if n.ident == id || IsNull(n.ident) then [] else [n]
  {
    hide IsNull;
    assert (a + [n])[..|a|] == a;
  }

  lemma {:induction false} WithoutJoins(a: seq<KNode>, b: seq<KNode>, id: Id)
    ensures Without(a + b, id) == Without(a, id) + Without(b, id)
  {
    if b == [] {
      assert a + b == a;
    } else {
      var front, n := b[..|b| - 1], b[|b| - 1];
      assert b == front + [n] && a + b == (a + front) + [n];
      hide *;
      WithoutNext(a + front, n, id);
      WithoutNext(front, n, id);
      WithoutJoins(a, front, id);
    }
  }

  /** The backup to promote: the first of the most recently seen, or the first when
      none was ever seen. */
  ghost predicate FreshestSlot(backups: seq<KNode>, k: nat) {
    && k < |backups|
    && (if exists j :: 0 <= j < |backups| && backups[j].lastSeen > 0 then
          && backups[k].lastSeen > 0
          && (forall j :: 0 <= j < |backups| ==> backups[j].lastSeen <= backups[k].lastSeen)
          && (forall j :: 0 <= j < k ==> backups[j].lastSeen < backups[k].lastSeen)
        else k == 0)
  }

  lemma {:induction false} FreshestIs(backups: seq<KNode>, n: nat)
    requires 0 < n <= |backups|
    ensures FreshestSlot(backups[..n], Freshest(backups, n))
  {
    if n > 1 {
      FreshestIs(backups, n - 1);
      var front, all, k := backups[..n - 1], backups[..n], Freshest(backups, n - 1);
      assert forall j :: 0 <= j < n - 1 ==> front[j] == all[j];
      assert all[n - 1] == backups[n - 1];
    }
  }

  /** A failure is counted once, in the first slot with the identifier. */
  lemma FailureCounts(b: Bucket, id: Id, now: int, k: nat)
    requires FirstOf(b.nodes, id, k)
    requires Without(b.backups, id) == [] || b.nodes[k].lastSeen + FIFTEEN_MINUTES >= now
    ensures var r := AfterFailure(b, id, now);
            && OnlySlot(b.nodes, r.nodes, k) && r.nodes[k] == b.nodes[k].(failed := b.nodes[k].failed + 1)
            && r == b.(nodes := r.nodes, backups := Without(b.backups, id))
  {
    assert SlotOf(b.nodes, id) == k;
    hide SlotOf, Without, Freshest;
  }

  /** A node silent for fifteen minutes gives way to the freshest backup, whose slot
      is emptied. */
  lemma FailureReplaces(b: Bucket, id: Id, now: int, k: nat, f: nat)
    requires FirstOf(b.nodes, id, k) && b.nodes[k].lastSeen + FIFTEEN_MINUTES < now
    requires FreshestSlot(Without(b.backups, id), f)
    ensures var r, left := AfterFailure(b, id, now), Without(b.backups, id);
            && OnlySlot(b.nodes, r.nodes, k) && r.nodes[k] == left[f]
            && OnlySlot(left, r.backups, f) && IsNull(r.backups[f].ident)
            && r.needPing == b.needPing && r.lastSeen == if left[f].lastSeen != 0 then now else b.lastSeen
  {
    assert SlotOf(b.nodes, id) == k;
    var left := Without(b.backups, id);
    FreshestIs(left, |left|);
    assert left[..|left|] == left;
    hide SlotOf, Without, Freshest, IsNull;
    OneFreshest(left, f, Freshest(left, |left|));
  }

  lemma OneFreshest(backups: seq<KNode>, j: nat, k: nat)
    requires FreshestSlot(backups, j) && FreshestSlot(backups, k)
    ensures j == k
  {
  }

  /** A failure of somebody else only clears the backups. */
  lemma FailureOfOther(b: Bucket, id: Id, now: int)
    requires Absent(b.nodes, id)
    ensures AfterFailure(b, id, now) == b.(backups := Without(b.backups, id))
  {
    assert SlotOf(b.nodes, id) == |b.nodes|;
    hide SlotOf, Without;
  }

  // ------------------------------------------------------------------ the table

  /** A contact reaches its own bucket, and the one with our own identifier none; the
      table then spans that bucket, and has been seen now. */
  lemma InsertDoes(s: Id, t: Table, item: KItem, contacted: bool, now: int)
    requires |t.buckets| == BUCKETS && t.nbucket0 <= t.nbucket1 <= BUCKETS
    ensures var r, i := Inserted(s, t, item, contacted, now), Lz(Xor(s, item.kadid));
            if item.kadid == s then r == t
            else
              && i < BUCKETS && |r.buckets| == BUCKETS && r.buckets[i] == AfterContact(t.buckets[i], item, contacted, now)
              && (forall j :: 0 <= j < BUCKETS && j != i ==> r.buckets[j] == t.buckets[j])
              && r.nbucket1 == (if t.nbucket1 > i then t.nbucket1 else i + 1) && r.lastSeen == now
              && (r.needPing <==> t.needPing || r.buckets[i].needPing)
  {
    OwnPrefix(s, item.kadid);
    hide Lz, AfterContact, TailStart;
  }

  lemma OwnPrefix(s: Id, id: Id)
    ensures Lz(Xor(s, id)) == ID_BITS <==> s == id
    ensures Lz(Xor(s, id)) <= ID_BITS
  {
    SamePrefix(s, id);
  }

  lemma {:induction false} SamePrefix(a: seq<bv8>, b: seq<bv8>)
    requires |a| == |b|
    ensures Lz(Xor(a, b)) == 8 * |a| <==> a == b
  {
    if a != [] {
      hide Lz, Xor, Lz8;
      LzStep(a, b);
      ByteXorZero(a[0], b[0]);
      SamePrefix(a[1..], b[1..]);
      HeadAndTail(a, b);
      LzAtMost(a[1..], b[1..]);
    }
  }

  lemma HeadAndTail(a: seq<bv8>, b: seq<bv8>)
    requires a != [] && b != []
    ensures a == b <==> a[0] == b[0] && a[1..] == b[1..]
  {
    assert a == [a[0]] + a[1..] && b == [b[0]] + b[1..];
  }

  lemma LzAtMost(a: seq<bv8>, b: seq<bv8>)
    requires |a| == |b|
    ensures Lz(Xor(a, b)) <= 8 * |a|
  {
  }

  lemma FailDoes(s: Id, t: Table, id: Id, now: int)
    requires |t.buckets| == BUCKETS && t.nbucket1 <= BUCKETS
    ensures var r, i := Failed(s, t, id, now), Lz(Xor(s, id));
            if i < t.nbucket1
            then && |r.buckets| == BUCKETS && r.buckets[i] == AfterFailure(t.buckets[i], id, now)
                 && (forall j :: 0 <= j < BUCKETS && j != i ==> r.buckets[j] == t.buckets[j])
                 && r == t.(buckets := r.buckets)
            else r == t
  {
    hide Lz, AfterFailure;
  }

  // ------------------------------------------------------------ contacts are found

  /** A bucket offers, slot by slot, the identity and address of its nodes; to a query
      that validates only of those heard from within fifteen minutes with fewer than
      three failures since, or never heard from and failed just twice. */
  lemma OfferedOne(n: KNode, validate: bool, now: int)
    ensures var good := if n.lastSeen == 0 then n.failed == 2 else n.failed < 3 && now - n.lastSeen <= 900;
            Offered([n], validate, now) == if !validate || good then [KItem(n.ident, n.address, n.port)] else []
    ensures Offered([], validate, now) == []
  {
    StandingOf(n, now);
    assert [n][..0] == [];
  }

  lemma OfferedNext(a: seq<KNode>, n: KNode, validate: bool, now: int)
    ensures Offered(a + [n], validate, now)
         == Offered(a, validate, now) + if Eligible(n, validate, now) then [n.Item()] else []
  {
    hide Eligible;
    assert (a + [n])[..|a|] == a;
  }

  lemma {:induction false} OfferedJoins(a: seq<KNode>, b: seq<KNode>, validate: bool, now: int)
    ensures Offered(a + b, validate, now) == Offered(a, validate, now) + Offered(b, validate, now)
  {
    if b == [] {
      assert a + b == a;
    } else {
      var front, n := b[..|b| - 1], b[|b| - 1];
      assert b == front + [n] && a + b == (a + front) + [n];
      hide *;
      OfferedNext(a + front, n, validate, now);
      OfferedNext(front, n, validate, now);
      OfferedJoins(a, front, validate, now);
    }
  }

  lemma {:induction false} OfferedHas(nodes: seq<KNode>, validate: bool, now: int, k: nat)
    requires k < |nodes| && Eligible(nodes[k], validate, now)
    ensures nodes[k].Item() in Offered(nodes, validate, now)
  {
    var last := |nodes| - 1;
    if k < last {
      OfferedHas(nodes[..last], validate, now, k);
    }
    hide Eligible;
  }

  lemma {:induction false} InUpward(bs: seq<Bucket>, lo: nat, hi: nat, validate: bool, now: int, x: KItem)
    requires hi <= |bs| && x in Upward(bs, lo, hi, validate, now)
    ensures exists j :: lo <= j < hi && x in Offered(bs[j].nodes, validate, now)
    decreases hi - lo
  {
    hide Offered;
    if x !in Offered(bs[lo].nodes, validate, now) {
      InUpward(bs, lo + 1, hi, validate, now, x);
    }
  }

  lemma {:induction false} InDownward(bs: seq<Bucket>, hi: nat, validate: bool, now: int, x: KItem)
    requires hi <= |bs| && x in Downward(bs, hi, validate, now)
    ensures exists j :: 0 <= j < hi && x in Offered(bs[j].nodes, validate, now)
  {
    hide Offered;
    if x !in Offered(bs[hi - 1].nodes, validate, now) {
      InDownward(bs, hi - 1, validate, now, x);
    }
  }

  /** Whatever a query finds with the identifier asked for is in that one's bucket. */
  lemma FoundInBucket(s: Id, t: Table, id: Id, validate: bool, now: int, x: KItem) returns (k: nat)
    requires TableInv(s, t) && s != id && x in Found(s, t, id, validate, now) && x.kadid == id
    ensures var i := Lz(Xor(s, id)); i < BUCKETS && k < |t.buckets[i].nodes| && t.buckets[i].nodes[k].Item() == x
  {
    var o := Lz(Xor(s, id));
    OwnPrefix(s, id);
    hide Lz, Offered, Upward, Downward, InBucket, Count;
    var backoff := if o > t.nbucket1 then t.nbucket1 else o;
    var items := Visited(t, o, validate, now);
    assert x in items;
    if x in Upward(t.buckets, o, t.nbucket1, validate, now) {
      InUpward(t.buckets, o, t.nbucket1, validate, now, x);
    } else {
      InDownward(t.buckets, backoff, validate, now, x);
    }
    var j :| 0 <= j < t.nbucket1 && x in Offered(t.buckets[j].nodes, validate, now);
    var p :| 0 <= p < |Offered(t.buckets[j].nodes, validate, now)| && Offered(t.buckets[j].nodes, validate, now)[p] == x;
    OfferedInBucket(s, j, t.buckets[j], validate, now, p);
    k := OfferedAreNodes(t.buckets[j].nodes, validate, now, p);
  }

  /** An eligible node of the bucket asked for is found. */
  lemma BucketIsFound(s: Id, t: Table, id: Id, validate: bool, now: int, k: nat)
    requires TableInv(s, t) && Lz(Xor(s, id)) < t.nbucket1 && k < |t.buckets[Lz(Xor(s, id))].nodes|
    requires Eligible(t.buckets[Lz(Xor(s, id))].nodes[k], validate, now)
    ensures t.buckets[Lz(Xor(s, id))].nodes[k].Item() in Found(s, t, id, validate, now)
  {
    var o := Lz(Xor(s, id));
    var nodes := t.buckets[o].nodes;
    OfferedHas(nodes, validate, now, k);
    var own, items := Offered(nodes, validate, now), Visited(t, o, validate, now);
    assert |own| <= K;
    assert items[..|own|] == own by {
      hide Offered, Lz, InBucket, Count;
    }
    var p :| 0 <= p < |own| && own[p] == nodes[k].Item();
    hide Offered, Lz, InBucket, Count, Visited;
    assert items[p] == own[p];
  }

  /** There is room for a contact: its identifier is known, or a slot is free or held
      by a bad node. */
  ghost predicate Room(b: Bucket, id: Id) {
    !Absent(b.nodes, id) || |b.nodes| < K || !NoneBad(b.nodes)
  }

  lemma RoomIsTaken(b: Bucket, item: KItem, contacted: bool, now: int) returns (k: nat)
    requires Room(b, item.kadid)
    ensures var r := AfterContact(b, item, contacted, now);
            && k < |r.nodes| && r.nodes[k].Item() == item
            && (contacted ==> r.nodes[k].failed == 0 && r.nodes[k].lastSeen == now)
  {
    var slot, bad := SlotOf(b.nodes, item.kadid), BadSlot(b.nodes);
    if slot < |b.nodes| {
      KnownContact(b, item, contacted, now, slot);
      k := slot;
    } else if |b.nodes| < K {
      NewContact(b, item, contacted, now);
      k := |b.nodes|;
    } else {
      ReplacingContact(b, item, contacted, now, bad);
      k := bad;
    }
    hide AfterContact, SlotOf, BadSlot;
  }

  /** Once a contact is inserted, a query for it finds it, just when there was room;
      and one that answered is found by a query that validates, too, for the next
      fifteen minutes. */
  lemma ContactIsFound(s: Id, t: Table, item: KItem, contacted: bool, now: int, later: int)
    requires TableInv(s, t) && item.kadid != s
    ensures Lz(Xor(s, item.kadid)) < BUCKETS
    ensures var b, r := t.buckets[Lz(Xor(s, item.kadid))], Inserted(s, t, item, contacted, now);
            && r.nbucket1 <= |r.buckets|
            && (item in Found(s, r, item.kadid, false, later) <==> Room(b, item.kadid))
            && (Room(b, item.kadid) && contacted && now != 0 && later - now <= 900 ==>
                  item in Found(s, r, item.kadid, true, later))
  {
    var i := Lz(Xor(s, item.kadid));
    OwnPrefix(s, item.kadid);
    var b, r := t.buckets[i], Inserted(s, t, item, contacted, now);
    InsertDoes(s, t, item, contacted, now);
    InsertKeeps(s, t, item, contacted, now);
    hide Lz, Found, AfterContact, InBucket, IsTailStart, Inserted;
    if Room(b, item.kadid) {
      var k := RoomIsTaken(b, item, contacted, now);
      BucketIsFound(s, r, item.kadid, false, later, k);
      if contacted && now != 0 && later - now <= 900 {
        StandingOf(r.buckets[i].nodes[k], later);
        BucketIsFound(s, r, item.kadid, true, later, k);
      }
    } else {
      SpareContact(b, item, contacted, now);
      if item in Found(s, r, item.kadid, false, later) {
        var k := FoundInBucket(s, r, item.kadid, false, later, item);
      }
    }
  }
}
