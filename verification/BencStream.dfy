/** The string stream and the recursive get and put calls that work on it. */
module BencStream {
  import opened BtTypes
  import opened Bencode

  datatype Status = Done | Failed | Aborted

  /** Dictionaries as `btDict_add` builds them, all the way down. */
  ghost predicate Ordered(o: Obj)
    decreases o
  {
    match o
    case Str(_) => true
    case Int(_) => true
    case List(items) => forall k :: 0 <= k < |items| ==> Ordered(items[k])
    case Dict(keys, values) =>
      |keys| == |values| && Sorted(keys) && forall k :: 0 <= k < |values| ==> Ordered(values[k])
  }

  lemma Regroup(a: string, b: string, c: string)
    ensures a + (b + c) == a + b + c
  {
  }

  class StrStream {
    var buf: string
    var cur: nat

    ghost predicate Valid()
      reads this
    {
      cur <= |buf|
    }

    constructor ()
      ensures Valid() && buf == "" && cur == 0
    {
      buf, cur := "", 0;
    }

    // ---------------------------------------------------------------------- reading

    method Read(len: nat) returns (ok: bool, s: string)
      requires Valid()
      modifies this`cur
      ensures Valid() && (ok <==> old(cur) + len <= |buf|)
      ensures if ok then cur == old(cur) + len && s == buf[old(cur)..cur] else cur == old(cur)
    {
      ok, s := true, "";
      if len == 0 {
        return;
      }
      if cur + len > |buf| {
        ok := false;
        return;
      }
      s := buf[cur..cur + len];
      cur := cur + len;
    }

    /** The next character's code, or -1 at the end. */
    method Peek() returns (c: int)
      requires Valid()
      ensures c == if cur < |buf| then buf[cur] as int else -1
    {
      c := if cur >= |buf| then -1 else buf[cur] as int;
    }

    method ScanBreak(brk: char, room: nat) returns (ok: bool, ibuf: string)
      requires Valid()
      modifies this`cur
      ensures Valid() && (ok <==> Scan(buf, old(cur), brk, room).At?)
      ensures ok ==> var e := Scan(buf, old(cur), brk, room).i; ibuf == buf[old(cur)..e] && cur == e + 1
    {
      ok, ibuf := false, "";
      ghost var start := cur;
      while |ibuf| < room
        invariant Valid() && |ibuf| <= room && cur == start + |ibuf| && ibuf == buf[start..cur]
        invariant Scan(buf, cur, brk, room - |ibuf|) == Scan(buf, start, brk, room)
        decreases room - |ibuf|
      {
        var got, s := Read(1);
        if !got {
          return;
        }
        if s[0] == brk || s[0] == NUL {
          ok := true;
          return;
        }
        if !IsDigit(s[0]) {
          return;
        }
        ibuf := ibuf + [s[0]];
      }
    }

    /** How a call that was to read what `r` says has ended. */
    ghost predicate Ended(r: Parsed, status: Status, o: Obj)
      reads this
    {
      && Valid()
      && (status == Done <==> r.Good?)
      && (status == Aborted <==> r.Died?)
      && (r.Good? ==> o == r.o && cur == r.n)
    }

    method ReadString() returns (status: Status, o: Obj)
      requires Valid()
      modifies this`cur
      ensures Ended(GetString(buf, old(cur)), status, o)
      ensures status == Done ==> o.Str?
    {
      o := Str("");
      var ok, ibuf := ScanBreak(':', LENGTH_ROOM);
      if !ok {
        return Failed, o;
      }
      var slen := Number(ibuf);
      if slen >= MAXSTRING {
        return Aborted, o;
      }
      var sbuf := "";
      if slen > 0 {
        ok, sbuf := Read(slen);
      }
      if !ok {
        return Failed, o;
      }
      return Done, Str(sbuf);
    }

    method ReadInt() returns (status: Status, o: Obj)
      requires Valid() && cur < |buf| && buf[cur] == 'i'
      modifies this`cur
      ensures Ended(GetInt(buf, old(cur)), status, o)
    {
      o := Int(0);
      var ok, c := Read(1);
      var ibuf;
      ok, ibuf := ScanBreak('e', INT_ROOM);
      if !ok {
        return Failed, o;
      }
      var v := Number(ibuf);
      return Done, Int(if v > INT64_MAX then INT64_MAX else v);
    }

    method ReadList() returns (status: Status, o: Obj)
      requires Valid() && cur < |buf| && buf[cur] == 'l'
      modifies this`cur
      ensures Ended(GetItems(buf, old(cur) + 1, []), status, o)
      decreases |buf| - cur, 0
    {
      var items := [];
      ghost var start := cur + 1;
      var ok, c := Read(1);
      var p := Peek();
      while p != 'e' as int
        invariant Valid() && start <= cur && p == (if cur < |buf| then buf[cur] as int else -1)
        invariant GetItems(buf, cur, items) == GetItems(buf, start, [])
        decreases |buf| - cur
      {
        var item;
        status, item := ReadObject();
        if status != Done {
          return status, item;
        }
        items := items + [item];
        p := Peek();
      }
      ok, c := Read(1);
      return Done, List(items);
    }

    method ReadDict() returns (status: Status, o: Obj)
      requires Valid() && cur < |buf| && buf[cur] == 'd'
      modifies this`cur
      ensures Ended(GetPairs(buf, old(cur) + 1, [], []), status, o)
      decreases |buf| - cur, 0
    {
      var d := new BtDict();
      ghost var start := cur + 1;
      var ok, c := Read(1);
      var p := Peek();
      while p != 'e' as int
        invariant Valid() && start <= cur && p == (if cur < |buf| then buf[cur] as int else -1)
        invariant fresh(d) && d.Valid()
        invariant GetPairs(buf, cur, d.key, d.value) == GetPairs(buf, start, [], [])
        decreases |buf| - cur
      {
        var k, v;
        status, k := ReadString();
        if status != Done {
          return status, k;
        }
        status, v := ReadObject();
        if status != Done {
          return status, v;
        }
        ok := d.Add(k.s, v);
        if !ok {
          return Failed, v;
        }
        p := Peek();
      }
      ok, c := Read(1);
      return Done, Dict(d.key, d.value);
    }

    /** `benc_get_object` reads just what the parser says. */
    method ReadObject() returns (status: Status, o: Obj)
      requires Valid()
      modifies this`cur
      ensures Ended(Parse(buf, old(cur)), status, o)
      decreases |buf| - cur, 1
    {
      o := Int(0);
      var c := Peek();
      if c < 0 {
        return Failed, o;
      }
      if c == 'd' as int {
        status, o := ReadDict();
      } else if c == 'l' as int {
        status, o := ReadList();
      } else if c == 'i' as int {
        status, o := ReadInt();
      } else if '0' as int <= c <= '9' as int {
        status, o := ReadString();
      } else {
        status := Failed;
      }
    }

    // ---------------------------------------------------------------------- writing

    method Write(s: string)
      modifies this`buf
      ensures buf == old(buf) + s
    {
      buf := buf + s;
    }

    method WriteString(s: string)
      modifies this`buf
      ensures buf == old(buf) + PrintString(s)
    {
      Write(Dec(|s|) + ":");
      Write(s);
      Regroup(Dec(|s|), ":", s);
      Regroup(old(buf), Dec(|s|) + ":", s);
    }

    method WriteInt(i: int)
      modifies this`buf
      ensures buf == old(buf) + Print(Int(i))
    {
      var digits := if i < 0 then "-" + Dec(-i) else Dec(i);
      Write("i" + digits + "e");
      Regroup("i", digits, "e");
    }

    method WriteList(items: seq<Obj>)
      requires forall k :: 0 <= k < |items| ==> Ordered(items[k])
      modifies this`buf
      ensures buf == old(buf) + ("l" + PrintItems(items))
      decreases items
    {
      ghost var all := buf + ("l" + PrintItems(items));
      Regroup(buf, "l", PrintItems(items));
      Write("l");
      assert items[0..] == items;
      for i := 0 to |items|
        invariant buf + PrintItems(items[i..]) == all
      {
        Regroup(buf, Print(items[i]), PrintItems(items[i + 1..]));
        assert items[i..][1..] == items[i + 1..];
        WriteObject(items[i]);
      }
      Write("e");
    }

    /** Walks the keys in order and looks each one up. */
    method WriteDict(keys: seq<string>, values: seq<Obj>)
      requires |keys| == |values| && Sorted(keys) && forall k :: 0 <= k < |values| ==> Ordered(values[k])
      modifies this`buf
      ensures buf == old(buf) + ("d" + PrintPairs(keys, values))
      decreases values
    {
      ghost var all := buf + ("d" + PrintPairs(keys, values));
      Regroup(buf, "d", PrintPairs(keys, values));
      Write("d");
      assert keys[0..] == keys && values[0..] == values;
      var idx := 0;
      while idx < |keys|
        invariant idx <= |keys|
        invariant buf + PrintPairs(keys[idx..], values[idx..]) == all
      {
        var found := Find(keys, keys[idx]);
        assert found == At(idx);
        ghost var rest := PrintPairs(keys[idx + 1..], values[idx + 1..]);
        assert keys[idx..][1..] == keys[idx + 1..] && values[idx..][1..] == values[idx + 1..];
        Regroup(buf, PrintString(keys[idx]), Print(values[idx]) + rest);
        Regroup(buf + PrintString(keys[idx]), Print(values[idx]), rest);
        WriteString(keys[idx]);
        WriteObject(values[found.i]);
        idx := idx + 1;
      }
      Write("e");
    }

    method WriteObject(o: Obj)
      requires Ordered(o)
      modifies this`buf
      ensures buf == old(buf) + Print(o)
      decreases o
    {
      match o
      case Str(s) => WriteString(s);
      case Int(i) => WriteInt(i);
      case List(items) => WriteList(items);
      case Dict(keys, values) => WriteDict(keys, values);
    }
  }
}
