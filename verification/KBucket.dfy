/** One bucket of the routing table: up to eight nodes and up to eight backup
    nodes, kept in two fixed buffers.  The clock reading of a call is its
    parameter `now`. */
module Buckets {
  import opened KadId

  const K: nat := 8
  const FIFTEEN_MINUTES: int := 900

  datatype KItem = KItem(kadid: Id, host: nat, port: nat)

  /** The all-zero identifier marks an emptied backup slot. */
  predicate IsNull(id: Id) {
    forall i :: 0 <= i < ID_BYTES ==> id[i] == 0
  }

  function NullItem(): (item: KItem)
    ensures IsNull(item.kadid)
  {
    KItem(seq(ID_BYTES, _ => 0), 0, 0)
  }

  /** A contact.  `lastSeen == 0` means that it never answered. */
  datatype KNode = KNode(ident: Id, address: nat, port: nat, failed: int, lastSeen: int, birthday: int) {

    function Touch(now: int): KNode {
      this.(failed := 0, lastSeen := now)
    }

    function TouchIf(contacted: bool, now: int): KNode {
      if contacted then Touch(now) else this
    }

    /** `knode::set` for a contact with the same identifier. */
    function Moved(item: KItem): KNode {
      this.(address := item.host, port := item.port)
    }

    predicate IsDoubt(now: int) {
      if lastSeen == 0 then failed < 2
      else failed < 3 && lastSeen + FIFTEEN_MINUTES < now
    }

    predicate IsBad() {
      if lastSeen == 0 then failed >= 2 else failed >= 3
    }

    predicate IsGood(now: int) {
      !IsDoubt(now) && failed < 3
    }

    function Item(): KItem {
      KItem(ident, address, port)
    }
  }

  function NewNode(item: KItem, now: int): KNode {
    KNode(item.kadid, item.host, item.port, 0, 0, now)
  }

  // --------------------------------------------------------- what a bucket does

  datatype Bucket = Bucket(nodes: seq<KNode>, backups: seq<KNode>, lastSeen: int, needPing: bool)

  const EMPTY: Bucket := Bucket([], [], 0, false)

  /** The first slot that holds `id`, or the number of slots. */
  function SlotOf(nodes: seq<KNode>, id: Id): (k: nat)
    ensures k <= |nodes|
    ensures k < |nodes| ==> nodes[k].ident == id
    ensures forall j :: 0 <= j < k ==> nodes[j].ident != id
  {
    if nodes == [] then 0
    else if nodes[0].ident == id then 0
    else
      var k := 1 + SlotOf(nodes[1..], id);
      assert forall j :: 0 < j < k ==> nodes[j] == nodes[1..][j - 1];
      k
  }

  /** The first slot that holds a bad node, or the number of slots. */
  function BadSlot(nodes: seq<KNode>): (k: nat)
    ensures k <= |nodes|
    ensures k < |nodes| ==> nodes[k].IsBad()
    ensures forall j :: 0 <= j < k ==> !nodes[j].IsBad()
  {
    if nodes == [] then 0
    else if nodes[0].IsBad() then 0
    else
      var k := 1 + BadSlot(nodes[1..]);
      assert forall j :: 0 < j < k ==> nodes[j] == nodes[1..][j - 1];
      k
  }

  /** Of the first `n` nodes, the first of the least recently seen among those
      seen before `now`; slot 0 when there is none. */
  function Stalest(nodes: seq<KNode>, n: nat, now: int): (k: nat)
    requires n <= |nodes|
    ensures n > 0 ==> k < n
    ensures n == 0 ==> k == 0
    ensures forall j :: 0 <= j < n ==> nodes[j].lastSeen >= now || nodes[k].lastSeen <= nodes[j].lastSeen
  {
    if n == 0 then 0
    else
      var k := Stalest(nodes, n - 1, now);
      var last := if n > 1 && nodes[k].lastSeen < now then nodes[k].lastSeen else now;
      if nodes[n - 1].lastSeen < last then n - 1 else k
  }

  /** Of the first `n` nodes, the first of the most recently seen among those
      ever seen; slot 0 when there is none. */
  function Freshest(nodes: seq<KNode>, n: nat): (k: nat)
    requires n <= |nodes|
    ensures n > 0 ==> k < n
    ensures n == 0 ==> k == 0
    ensures forall j :: 0 <= j < n ==> nodes[j].lastSeen <= 0 || nodes[j].lastSeen <= nodes[k].lastSeen
  {
    if n == 0 then 0
    else
      var k := Freshest(nodes, n - 1);
      var best := if n > 1 && nodes[k].lastSeen > 0 then nodes[k].lastSeen else 0;
      if nodes[n - 1].lastSeen > best then n - 1 else k
  }

  function AfterBackup(backups: seq<KNode>, item: KItem, contacted: bool, now: int): seq<KNode> {
    var k := SlotOf(backups, item.kadid);
    var added := NewNode(item, now).TouchIf(contacted, now);
    if k < |backups| then backups[k := backups[k].TouchIf(contacted, now)]
    else if |backups| < K then backups + [added]
    else
      var idx := Stalest(backups, |backups|, now);
      if contacted || backups[idx].lastSeen == 0 then backups[idx := added] else backups
  }

  predicate HasDoubt(nodes: seq<KNode>, now: int) {
    exists j :: 0 <= j < |nodes| && nodes[j].IsDoubt(now)
  }

  function AfterContact(b: Bucket, item: KItem, contacted: bool, now: int): Bucket {
    var seen := if contacted then now else b.lastSeen;
    var added := NewNode(item, now).TouchIf(contacted, now);
    var k := SlotOf(b.nodes, item.kadid);
    var bad := BadSlot(b.nodes);
    if k < |b.nodes| then
      b.(nodes := b.nodes[k := b.nodes[k].Moved(item).TouchIf(contacted, now)], lastSeen := seen)
    else if |b.nodes| < K then
      b.(nodes := b.nodes + [added], lastSeen := seen)
    else if bad < |b.nodes| then
      b.(nodes := b.nodes[bad := added], lastSeen := seen)
    else if HasDoubt(b.nodes, now) then
      b.(backups := AfterBackup(b.backups, item, contacted, now), needPing := true)
    else
      b.(backups := [])
  }

  /** The backups left when `id` fails: neither it nor emptied slots stay. */
  function Without(backups: seq<KNode>, id: Id): (r: seq<KNode>)
    ensures |r| <= |backups|
  {
    if backups == [] then []
    else
      var n := backups[|backups| - 1];
      var rest := Without(backups[..|backups| - 1], id);
      if n.ident == id || IsNull(n.ident) then rest else rest + [n]
  }

  lemma {:induction false} WithoutKeeps(backups: seq<KNode>, id: Id, n: KNode)
    ensures n in Without(backups, id) <==> n in backups && n.ident != id && !IsNull(n.ident)
  {
    if backups != [] {
      var last := |backups| - 1;
      WithoutKeeps(backups[..last], id, n);
      assert backups == backups[..last] + [backups[last]];
    }
  }

  lemma WithoutStep(backups: seq<KNode>, i: nat, id: Id)
    requires i < |backups|
    ensures var n := backups[i];
            var rest := Without(backups[..i], id);
            Without(backups[..i + 1], id) == if n.ident == id || IsNull(n.ident) then rest else rest + [n]
  {
    assert backups[..i + 1][..i] == backups[..i];
  }

  /** Replaces node `k`, when it is stale, with the freshest backup. */
  function Promote(b: Bucket, k: nat, now: int): Bucket
    requires k < |b.nodes|
  {
    if b.backups != [] && b.nodes[k].lastSeen + FIFTEEN_MINUTES < now then
      var f := Freshest(b.backups, |b.backups|);
      Bucket(b.nodes[k := b.backups[f]],
             b.backups[f := NewNode(NullItem(), now)],
             if b.backups[f].lastSeen != 0 then now else b.lastSeen,
             b.needPing)
    else b
  }

  function AfterFailure(b: Bucket, id: Id, now: int): Bucket {
    var k := SlotOf(b.nodes, id);
    var left := Without(b.backups, id);
    if k == |b.nodes| then b.(backups := left)
    else
      var kn := b.nodes[k].(failed := b.nodes[k].failed + 1);
      Promote(b.(nodes := b.nodes[k := kn], backups := left), k, now)
  }

  predicate Eligible(n: KNode, validate: bool, now: int) {
    !validate || n.IsGood(now)
  }

  /** The items that `find_nodes` reads out of the slots, in slot order. */
  function Offered(nodes: seq<KNode>, validate: bool, now: int): (r: seq<KItem>)
    ensures |r| <= |nodes|
  {
    if nodes == [] then []
    else
      var n := nodes[|nodes| - 1];
      var rest := Offered(nodes[..|nodes| - 1], validate, now);
      assert nodes == nodes[..|nodes| - 1] + [n];
      if Eligible(n, validate, now) then rest + [n.Item()] else rest
  }

  lemma OfferedStep(nodes: seq<KNode>, i: nat, validate: bool, now: int)
    requires i < |nodes|
    ensures Offered(nodes[..0], validate, now) == []
    ensures var rest := Offered(nodes[..i], validate, now);
            Offered(nodes[..i + 1], validate, now)
            == if Eligible(nodes[i], validate, now) then rest + [nodes[i].Item()] else rest
  {
    assert nodes[..i + 1][..i] == nodes[..i];
  }

  // ------------------------------------------------------------ what it keeps

  ghost predicate InPlace(s: Id, i: nat, n: KNode) {
    Lz(Xor(s, n.ident)) == i
  }

  /** Every node of bucket `i` shares exactly `i` leading bits with the table's
      identifier; a backup slot may also have been emptied. */
  ghost predicate InBucket(s: Id, i: nat, b: Bucket) {
    && |b.nodes| <= K && |b.backups| <= K
    && (forall k :: 0 <= k < |b.nodes| ==> InPlace(s, i, b.nodes[k]))
    && (forall k :: 0 <= k < |b.backups| ==> IsNull(b.backups[k].ident) || InPlace(s, i, b.backups[k]))
  }

  lemma BackupKeeps(s: Id, i: nat, b: Bucket, item: KItem, contacted: bool, now: int)
    requires InBucket(s, i, b) && Lz(Xor(s, item.kadid)) == i
    ensures InBucket(s, i, b.(backups := AfterBackup(b.backups, item, contacted, now)))
  {
    hide SlotOf, Stalest, Lz, IsNull;
  }

  /** A contact only ever adds to its own bucket, and never evicts a node that
      is not bad. */
  lemma ContactKeeps(s: Id, i: nat, b: Bucket, item: KItem, contacted: bool, now: int)
    requires InBucket(s, i, b) && Lz(Xor(s, item.kadid)) == i
    ensures var r := AfterContact(b, item, contacted, now);
            && InBucket(s, i, r)
            && |b.nodes| <= |r.nodes| <= |b.nodes| + 1
            && r.nodes != []
            && (forall k :: 0 <= k < |b.nodes| && !b.nodes[k].IsBad() ==> r.nodes[k].ident == b.nodes[k].ident)
  {
    ContactStays(s, i, b, item, contacted, now);
    hide SlotOf, BadSlot, HasDoubt, InBucket, AfterBackup;
  }

  lemma ContactStays(s: Id, i: nat, b: Bucket, item: KItem, contacted: bool, now: int)
    requires InBucket(s, i, b) && Lz(Xor(s, item.kadid)) == i
    ensures InBucket(s, i, AfterContact(b, item, contacted, now))
  {
    var added := NewNode(item, now).TouchIf(contacted, now);
    var k := SlotOf(b.nodes, item.kadid);
    assert InPlace(s, i, added);
    if k < |b.nodes| {
      assert InPlace(s, i, b.nodes[k].Moved(item).TouchIf(contacted, now));
    }
    hide SlotOf, BadSlot, HasDoubt, InPlace, IsNull, AfterBackup;
    BackupKeeps(s, i, b, item, contacted, now);
  }

  lemma PromoteKeeps(s: Id, i: nat, b: Bucket, k: nat, now: int)
    requires InBucket(s, i, b) && k < |b.nodes|
    requires forall j :: 0 <= j < |b.backups| ==> !IsNull(b.backups[j].ident)
    ensures InBucket(s, i, Promote(b, k, now)) && |Promote(b, k, now).nodes| == |b.nodes|
  {
    hide Freshest, Lz, IsNull;
  }

  /** A failure keeps the number of nodes: a failed node is replaced by a backup
      of the same bucket or stays. */
  lemma FailureKeeps(s: Id, i: nat, b: Bucket, id: Id, now: int)
    requires InBucket(s, i, b)
    ensures var r := AfterFailure(b, id, now);
            InBucket(s, i, r) && |r.nodes| == |b.nodes|
  {
    hide SlotOf, Promote, Lz, IsNull, Without;
    var left := Without(b.backups, id);
    forall k | 0 <= k < |left|
      ensures InPlace(s, i, left[k]) && !IsNull(left[k].ident)
    {
      WithoutKeeps(b.backups, id, left[k]);
      var j :| 0 <= j < |b.backups| && b.backups[j] == left[k];
    }
    var k := SlotOf(b.nodes, id);
    if k < |b.nodes| {
      var kn := b.nodes[k].(failed := b.nodes[k].failed + 1);
      assert InPlace(s, i, b.nodes[k]);
      PromoteKeeps(s, i, b.(nodes := b.nodes[k := kn], backups := left), k, now);
    }
  }

  // ------------------------------------------------------------------ the class

  class KBucket {
    var nknode: nat
    const knodes: array<KNode>
    var nbackup: nat
    const backups: array<KNode>
    var lastSeen: int
    var needPing: bool

    ghost predicate Valid()
      reads this
    {
      knodes.Length == K && backups.Length == K && knodes != backups && nknode <= K && nbackup <= K
    }

    ghost function State(): (b: Bucket)
      requires Valid()
      reads this, knodes, backups
      ensures |b.nodes| == nknode && |b.backups| == nbackup
    {
      Bucket(knodes[..nknode], backups[..nbackup], lastSeen, needPing)
    }

    constructor ()
      ensures Valid() && State() == EMPTY
      ensures fresh(knodes) && fresh(backups)
    {
      nknode, nbackup, lastSeen, needPing := 0, 0, 0, false;
      knodes := new KNode[K];
      backups := new KNode[K];
    }

    /** Writes a slot, the next free one included. */
    method PutBackup(i: nat, n: KNode)
      requires Valid() && i <= nbackup && i < K
      modifies this`nbackup, backups
      ensures Valid()
      ensures var was := old(State()).backups;
              State() == old(State()).(backups := if i < |was| then was[i := n] else was + [n])
    {
      backups[i] := n;
      if i == nbackup {
        nbackup := nbackup + 1;
      }
    }

    /** Writes a slot, the next free one included. */
    method PutNode(i: nat, n: KNode)
      requires Valid() && i <= nknode && i < K
      modifies this`nknode, knodes
      ensures Valid()
      ensures var was := old(State()).nodes;
              State() == old(State()).(nodes := if i < |was| then was[i := n] else was + [n])
    {
      knodes[i] := n;
      if i == nknode {
        nknode := nknode + 1;
      }
    }

    method FindSlot(buf: array<KNode>, n: nat, id: Id) returns (k: nat)
      requires n <= buf.Length
      ensures k == SlotOf(buf[..n], id)
    {
      k := 0;
      while k < n && buf[k].ident != id
        invariant k <= n
        invariant forall j :: 0 <= j < k ==> buf[j].ident != id
      {
        k := k + 1;
      }
    }

    method FindBad() returns (k: nat)
      requires Valid()
      ensures k == BadSlot(State().nodes)
    {
      k := 0;
      while k < nknode && !knodes[k].IsBad()
        invariant k <= nknode
        invariant forall j :: 0 <= j < k ==> !knodes[j].IsBad()
      {
        k := k + 1;
      }
    }

    method CountDoubt(now: int) returns (pingCount: nat)
      requires Valid()
      ensures pingCount > 0 <==> HasDoubt(State().nodes, now)
    {
      pingCount := 0;
      ghost var nodes := State().nodes;
      for i := 0 to nknode
        invariant pingCount == 0
        invariant forall j :: 0 <= j < i ==> !nodes[j].IsDoubt(now)
      {
        if knodes[i].IsDoubt(now) {
          pingCount := pingCount + 1;
          assert nodes[i].IsDoubt(now);
          break;
        }
      }
    }

    method FindStalest(now: int) returns (idx: nat)
      requires Valid()
      ensures idx == Stalest(State().backups, nbackup, now)
    {
      idx := 0;
      var last := now;
      ghost var was := backups[..nbackup];
      for i := 0 to nbackup
        invariant idx == Stalest(was, i, now)
        invariant last == if i > 0 && was[idx].lastSeen < now then was[idx].lastSeen else now
      {
        if backups[i].lastSeen < last {
          last := backups[i].lastSeen;
          idx := i;
        }
      }
    }

    method UpdateBackup(item: KItem, contacted: bool, now: int)
      requires Valid()
      modifies this`nbackup, backups
      ensures Valid()
      ensures State() == old(State()).(backups := AfterBackup(old(State()).backups, item, contacted, now))
    {
      var i := FindSlot(backups, nbackup, item.kadid);
      if i < nbackup {
        PutBackup(i, backups[i].TouchIf(contacted, now));
        return;
      }
      var added := NewNode(item, now).TouchIf(contacted, now);
      if nbackup < K {
        PutBackup(nbackup, added);
        return;
      }
      var idx := FindStalest(now);
      if contacted || backups[idx].lastSeen == 0 {
        PutBackup(idx, added);
      }
    }

    method UpdateContact(item: KItem, contacted: bool, now: int)
      requires Valid()
      modifies this, knodes, backups
      ensures Valid()
      ensures State() == AfterContact(old(State()), item, contacted, now)
    {
      var i := FindSlot(knodes, nknode, item.kadid);
      if i < nknode {
        PutNode(i, knodes[i].Moved(item).TouchIf(contacted, now));
        lastSeen := if contacted then now else lastSeen;
        return;
      }
      var added := NewNode(item, now).TouchIf(contacted, now);
      if nknode < K {
        PutNode(nknode, added);
        lastSeen := if contacted then now else lastSeen;
        return;
      }
      i := FindBad();
      if i < nknode {
        PutNode(i, added);
        lastSeen := if contacted then now else lastSeen;
        return;
      }
      hide HasDoubt, AfterBackup, BadSlot, SlotOf;
      ghost var b := State();
      var pingCount := CountDoubt(now);
      if pingCount == 0 {
        nbackup := 0;
        assert State() == b.(backups := []);
      } else {
        UpdateBackup(item, contacted, now);
        needPing := true;
      }
    }

    /** Drops `id` and the emptied slots from the backups, in place. */
    method Compact(id: Id)
      requires Valid()
      modifies this`nbackup, backups
      ensures Valid()
      ensures State() == old(State()).(backups := Without(old(State()).backups, id))
    {
      hide Without, Lz, IsNull;
      ghost var was := backups[..nbackup];
      var count := nbackup;
      nbackup := 0;
      for i := 0 to count
        invariant nbackup <= i <= count == |was| <= K
        invariant forall j :: i <= j < count ==> backups[j] == was[j]
        invariant backups[..nbackup] == Without(was[..i], id)
      {
        WithoutStep(was, i, id);
        if backups[i].ident != id && !IsNull(backups[i].ident) {
          var idx := nbackup;
          nbackup := nbackup + 1;
          if idx < i {
            backups[idx] := backups[i];
          }
        }
      }
      assert was[..count] == was;
    }

    method FindFreshest() returns (found: nat)
      requires Valid()
      ensures found == Freshest(State().backups, nbackup)
    {
      found := 0;
      var best := 0;
      ghost var was := backups[..nbackup];
      for j := 0 to nbackup
        invariant found == Freshest(was, j)
        invariant best == if j > 0 && was[found].lastSeen > 0 then was[found].lastSeen else 0
      {
        if backups[j].lastSeen > best {
          best := backups[j].lastSeen;
          found := j;
        }
      }
    }

    method Touch(now: int)
      requires Valid()
      modifies this`lastSeen
      ensures Valid() && State() == old(State()).(lastSeen := now)
    {
      lastSeen := now;
    }

    method PromoteBackup(k: nat, now: int)
      requires Valid() && k < nknode
      modifies this, knodes, backups
      ensures Valid()
      ensures State() == Promote(old(State()), k, now)
    {
      hide Freshest, IsNull, Lz;
      ghost var b := State();
      if nbackup > 0 && knodes[k].lastSeen + FIFTEEN_MINUTES < now {
        var found := FindFreshest();
        var n := backups[found];
        assert n == b.backups[found] && |b.nodes| == nknode && |b.backups| == nbackup;
        hide State;
        PutNode(k, n);
        if n.lastSeen != 0 {
          Touch(now);
        }
        PutBackup(found, NewNode(NullItem(), now));
      }
    }

    method FailedContact(id: Id, now: int)
      requires Valid()
      modifies this, knodes, backups
      ensures Valid()
      ensures State() == AfterFailure(old(State()), id, now)
    {
      hide SlotOf, Without, Promote, Lz;
      var kn := FindSlot(knodes, nknode, id);
      if kn < nknode {
        PutNode(kn, knodes[kn].(failed := knodes[kn].failed + 1));
      }
      Compact(id);
      if kn < nknode {
        PromoteBackup(kn, now);
      }
    }

    method FindNodes(out: array<KItem>, validate: bool, now: int) returns (count: nat)
      requires Valid() && out.Length >= K
      modifies out
      ensures count == |Offered(State().nodes, validate, now)|
      ensures count <= K
      ensures out[..count] == Offered(State().nodes, validate, now)
    {
      hide Offered;
      count := 0;
      ghost var nodes := knodes[..nknode];
      for i := 0 to nknode
        invariant count <= i
        invariant out[..count] == Offered(nodes[..i], validate, now)
      {
        OfferedStep(nodes, i, validate, now);
        if !validate || knodes[i].IsGood(now) {
          out[count] := knodes[i].Item();
          count := count + 1;
        }
      }
      assert nodes[..nknode] == nodes;
    }
  }
}
