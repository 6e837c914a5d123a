/** Bencoded objects, and the sorted dictionaries they are made of. */
module BtTypes {

  const NUL: char := '\0'

  datatype Obj = Str(s: string) | Int(i: int) | List(items: seq<Obj>) | Dict(keys: seq<string>, values: seq<Obj>)

  // ------------------------------------------------------------ comparing strings

  function Sign(n: int): int {
    if n < 0 then -1 else if n > 0 then 1 else 0
  }

  /** `btString_cmp`: by characters up to the first NUL, then by length. */
  function Order(a: string, b: string): (r: int)
    ensures -1 <= r <= 1
    decreases |a|
  {
    if a == [] || b == [] then Sign(|a| - |b|)
    else if a[0] != b[0] then (if a[0] < b[0] then -1 else 1)
    else if a[0] == NUL then Sign(|a| - |b|)
    else Order(a[1..], b[1..])
  }

  /** `strncmp(a, b, n)`, as a sign. */
  function CompareN(a: string, b: string, n: nat): (r: int)
    requires n <= |a| && n <= |b|
    ensures -1 <= r <= 1
  {
    if n == 0 then 0
    else if a[0] != b[0] then (if a[0] < b[0] then -1 else 1)
    else if a[0] == NUL then 0
    else CompareN(a[1..], b[1..], n - 1)
  }

  lemma {:induction false} OrderIsCompare(a: string, b: string)
    ensures var n := if |a| > |b| then |b| else |a|;
            Order(a, b) == if CompareN(a, b, n) == 0 then Sign(|a| - |b|) else CompareN(a, b, n)
    decreases |a|
  {
    if a != [] && b != [] && a[0] == b[0] && a[0] != NUL {
      OrderIsCompare(a[1..], b[1..]);
    }
  }

  method StringCmp(a: string, b: string) returns (res: int)
    ensures res == Order(a, b)
  {
    OrderIsCompare(a, b);
    var n, along;
    if |a| > |b| {
      n, along := |b|, 1;
    } else {
      n, along := |a|, if |a| < |b| then -1 else 0;
    }
    var i := 0;
    while i < n
      invariant i <= n && CompareN(a[i..], b[i..], n - i) == CompareN(a, b, n)
    {
      if a[i] != b[i] {
        return if a[i] < b[i] then -1 else 1;
      }
      if a[i] == NUL {
        break;
      }
      assert a[i..][1..] == a[i + 1..] && b[i..][1..] == b[i + 1..];
      i := i + 1;
    }
    res := along;
  }

  lemma {:induction false} OrderFlips(a: string, b: string)
    ensures Order(a, b) == -Order(b, a)
    decreases |a|
  {
    if a != [] && b != [] && a[0] == b[0] && a[0] != NUL {
      OrderFlips(a[1..], b[1..]);
    }
  }

  lemma {:induction false} OrderTrans(a: string, b: string, c: string)
    requires Order(a, b) <= 0 && Order(b, c) <= 0
    ensures Order(a, c) <= 0
    ensures Order(a, b) < 0 || Order(b, c) < 0 ==> Order(a, c) < 0
    decreases |a|
  {
    if a != [] && b != [] && c != [] && a[0] == b[0] == c[0] && a[0] != NUL {
      OrderTrans(a[1..], b[1..], c[1..]);
    }
  }

  /** Only strings that agree up to a NUL and in length count as equal; without
      NULs, only equal ones do. */
  lemma {:induction false} OrderEqual(a: string, b: string)
    ensures a == b ==> Order(a, b) == 0
    ensures Order(a, b) == 0 && NUL !in a && NUL !in b ==> a == b
    decreases |a|
  {
    if a != [] && b != [] && a[0] == b[0] && a[0] != NUL {
      OrderEqual(a[1..], b[1..]);
      assert a == [a[0]] + a[1..] && b == [b[0]] + b[1..];
    }
  }

  // ----------------------------------------------------------------- dictionaries

  ghost predicate Sorted(keys: seq<string>) {
    forall i, j :: 0 <= i < j < |keys| ==> Order(keys[i], keys[j]) < 0
  }

  ghost predicate HasKey(keys: seq<string>, k: string) {
    exists i :: 0 <= i < |keys| && Order(k, keys[i]) == 0
  }

  /** How many keys come before `k`. */
  function Place(keys: seq<string>, k: string): (p: nat)
    ensures p <= |keys|
  {
    if keys == [] then 0
    else if Order(keys[|keys| - 1], k) < 0 then |keys|
    else Place(keys[..|keys| - 1], k)
  }

  lemma {:induction false} PlaceSplits(keys: seq<string>, k: string)
    requires Sorted(keys)
    ensures forall i :: 0 <= i < |keys| ==> (Order(keys[i], k) < 0 <==> i < Place(keys, k))
  {
    if keys != [] {
      var last := |keys| - 1;
      if Order(keys[last], k) < 0 {
        forall i | 0 <= i < last
          ensures Order(keys[i], k) < 0
        {
          OrderTrans(keys[i], keys[last], k);
        }
      } else {
        assert Sorted(keys[..last]);
        PlaceSplits(keys[..last], k);
        assert forall i :: 0 <= i < last ==> keys[..last][i] == keys[i];
      }
    }
  }

  function Inserted<T>(s: seq<T>, p: nat, x: T): seq<T>
    requires p <= |s|
  {
    s[..p] + [x] + s[p..]
  }

  lemma InsertSorted(keys: seq<string>, k: string)
    requires Sorted(keys) && !HasKey(keys, k)
    ensures Sorted(Inserted(keys, Place(keys, k), k))
  {
    PlaceSplits(keys, k);
    var p := Place(keys, k);
    forall i | p <= i < |keys|
      ensures Order(k, keys[i]) < 0
    {
      OrderFlips(k, keys[i]);
      assert Order(k, keys[i]) != 0;
    }
  }

  /** The entries from `hole` on have moved up by one, the others are in place. */
  ghost predicate Shifted<T>(now: seq<T>, was: seq<T>, hole: nat) {
    && |now| == |was| + 1 && hole <= |was|
    && (forall j :: 0 <= j < hole ==> now[j] == was[j])
    && (forall j :: hole < j <= |was| ==> now[j] == was[j - 1])
  }

  lemma ShiftedIsInserted<T>(now: seq<T>, was: seq<T>, hole: nat, x: T)
    requires Shifted(now, was, hole)
    ensures now[hole := x] == Inserted(was, hole, x)
  {
    assert now[hole := x][..hole] == was[..hole];
    assert now[hole := x][hole + 1..] == was[hole..];
  }

  /** `btDict`: keys and values side by side, in the order of the keys. */
  class BtDict {
    var key: seq<string>
    var value: seq<Obj>

    ghost predicate Valid()
      reads this
    {
      |key| == |value| && Sorted(key)
    }

    constructor ()
      ensures Valid() && key == [] && value == []
    {
      key, value := [], [];
    }

    /** Adds a new key in its place; false when the key is there already. */
    method Add(k: string, v: Obj) returns (ok: bool)
      requires Valid()
      modifies this
      ensures ok <==> !HasKey(old(key), k)
      ensures ok ==> Valid()
      ensures ok ==> key == Inserted(old(key), Place(old(key), k), k)
      ensures ok ==> value == Inserted(old(value), Place(old(key), k), v)
    {
      hide Order;
      var idx := |key|;
      var hi, lo, ipos := idx, 0, idx;
      PlaceSplits(key, k);
      ghost var p := Place(key, k);
      while lo < hi
        invariant 0 <= lo <= p <= hi == ipos <= idx
        invariant key == old(key) && value == old(value)
        invariant forall i :: 0 <= i < lo ==> Order(k, key[i]) > 0
        invariant forall i :: hi <= i < idx ==> Order(k, key[i]) < 0
      {
        var mid := (lo + hi) / 2;
        var res := StringCmp(k, key[mid]);
        OrderFlips(k, key[mid]);
        if res == 0 {
          return false;
        }
        if res < 0 {
          Upper(key, k, mid);
          ipos, hi := mid, mid;
        } else {
          Lower(key, k, mid);
          lo := mid + 1;
        }
      }
      InsertSorted(key, k);
      ShiftUp(ipos, k, v);
      ok := true;
    }

    /** Makes room by moving the later entries up, one by one. */
    method ShiftUp(ipos: nat, k: string, v: Obj)
      requires |key| == |value| && ipos <= |key|
      modifies this
      ensures key == Inserted(old(key), ipos, k) && value == Inserted(old(value), ipos, v)
    {
      var idx := |key|;
      key, value := key + [k], value + [v];
      var i: int := idx - 1;
      while i >= ipos
        invariant ipos - 1 <= i <= idx - 1 && |key| == |value| == idx + 1
        invariant Shifted(key, old(key), i + 1) && Shifted(value, old(value), i + 1)
      {
        key, value := key[i + 1 := key[i]], value[i + 1 := value[i]];
        i := i - 1;
      }
      ShiftedIsInserted(key, old(key), ipos, k);
      ShiftedIsInserted(value, old(value), ipos, v);
      key, value := key[ipos := k], value[ipos := v];
    }
  }

  lemma Upper(keys: seq<string>, k: string, mid: nat)
    requires Sorted(keys) && mid < |keys| && Order(k, keys[mid]) < 0
    ensures forall i :: mid <= i < |keys| ==> Order(k, keys[i]) < 0
  {
    forall i | mid < i < |keys|
      ensures Order(k, keys[i]) < 0
    {
      OrderTrans(k, keys[mid], keys[i]);
    }
  }

  lemma Lower(keys: seq<string>, k: string, mid: nat)
    requires Sorted(keys) && mid < |keys| && Order(k, keys[mid]) > 0
    ensures forall i :: 0 <= i <= mid ==> Order(k, keys[i]) > 0
  {
    OrderFlips(k, keys[mid]);
    forall i | 0 <= i < mid
      ensures Order(k, keys[i]) > 0
    {
      OrderTrans(keys[i], keys[mid], k);
      OrderFlips(k, keys[i]);
    }
  }

  datatype MaybeIndex = Absent | At(i: nat)

  /** `btDict_find`: binary search finds every key, and nothing else. */
  method Find(keys: seq<string>, k: string) returns (r: MaybeIndex)
    requires Sorted(keys)
    ensures r.At? ==> r.i < |keys| && Order(k, keys[r.i]) == 0
    ensures r.Absent? <==> !HasKey(keys, k)
    ensures forall i :: 0 <= i < |keys| && k == keys[i] ==> r == At(i)
  {
    forall i, j | 0 <= i < |keys| && 0 <= j < |keys| && k == keys[i] && Order(k, keys[j]) == 0
      ensures i == j
    {
      OrderFlips(keys[i], keys[j]);
    }
    forall i | 0 <= i < |keys| && k == keys[i]
      ensures Order(k, keys[i]) == 0
    {
      OrderEqual(k, keys[i]);
    }
    hide Order;
    var hi, lo := |keys|, 0;
    while lo < hi
      invariant 0 <= lo <= hi <= |keys|
      invariant forall i :: 0 <= i < lo ==> Order(k, keys[i]) > 0
      invariant forall i :: hi <= i < |keys| ==> Order(k, keys[i]) < 0
    {
      var mid := (lo + hi) / 2;
      var res := StringCmp(k, keys[mid]);
      if res == 0 {
        return At(mid);
      }
      if res < 0 {
        Upper(keys, k, mid);
        hi := mid;
      } else {
        Lower(keys, k, mid);
        lo := mid + 1;
      }
    }
    r := Absent;
  }
}
