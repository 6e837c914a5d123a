/** The lazy reader of bencoded text: entities that remember only where they
    start, and one cursor that every look-up moves. */
module BtCodec {
  import opened BtTypes
  import opened Bencode

  /** `Infinite` is the entity that is not there, `Finish` the end of a container.
      Containers know their place in the text, strings that of their characters. */
  datatype Entity =
    | Infinite
    | Finish
    | DictEntity(off: nat, len: nat)
    | ListEntity(off: nat, len: nat)
    | IntEntity(value: nat)
    | StrEntity(start: nat, size: nat)

  datatype Scanned = Scanned(e: Entity, n: nat)

  // ------------------------------------------------------------------- the scanner

  /** `getbyte`: a mark that starts nothing, at the end of the text. */
  function CharAt(text: string, off: nat): char {
    if off < |text| then text[off] else '#'
  }

  function Past(text: string, off: nat): (n: nat)
    requires off <= |text|
    ensures off <= n <= |text|
  {
    if off < |text| then off + 1 else off
  }

  function DigitsEnd(text: string, off: nat): (e: nat)
    requires off <= |text|
    ensures off <= e <= |text| && Digits(text[off..e]) && !IsDigit(CharAt(text, e))
    decreases |text| - off
  {
    if IsDigit(CharAt(text, off)) then DigitsEnd(text, off + 1) else off
  }

  lemma {:induction false} DigitsEndIs(text: string, off: nat, e: nat)
    requires off <= e <= |text| && Digits(text[off..e]) && !IsDigit(CharAt(text, e))
    ensures DigitsEnd(text, off) == e
    decreases e - off
  {
    if off < e {
      assert text[off] == text[off..e][0];
      assert text[off + 1..e] == text[off..e][1..];
      DigitsEndIs(text, off + 1, e);
    }
  }

  function ScanInt(text: string, off: nat): (r: Scanned)
    requires off < |text|
    ensures off < r.n <= |text|
  {
    var e := DigitsEnd(text, off + 1);
    if e > off + 1 && CharAt(text, e) == 'e' then Scanned(IntEntity(Number(text[off + 1..e])), e + 1)
    else Scanned(Infinite, Past(text, e))
  }

  function ScanString(text: string, off: nat): (r: Scanned)
    requires off < |text|
    ensures off <= r.n <= |text| && (r.e != Infinite ==> off < r.n)
  {
    var e := DigitsEnd(text, off);
    if e > off && CharAt(text, e) == ':' && e + 1 + Number(text[off..e]) < |text|
    then Scanned(StrEntity(e + 1, Number(text[off..e])), e + 1 + Number(text[off..e]))
    else Scanned(Infinite, Past(text, e))
  }

  /** `bobject`: the entity at the cursor and where the cursor then stands. */
  function ScanObject(text: string, off: nat): (r: Scanned)
    requires off <= |text|
    ensures off <= r.n <= |text| && (r.e != Infinite ==> off < r.n)
    decreases |text| - off, 0
  {
    if off == |text| then Scanned(Infinite, off)
    else if text[off] == 'd' then
      var r := ScanRest(text, off + 1);
      Scanned(if r.e == Finish then DictEntity(off, r.n - off) else Infinite, r.n)
    else if text[off] == 'l' then
      var r := ScanRest(text, off + 1);
      Scanned(if r.e == Finish then ListEntity(off, r.n - off) else Infinite, r.n)
    else if text[off] == 'i' then ScanInt(text, off)
    else if text[off] == 'e' then Scanned(Finish, off + 1)
    else ScanString(text, off)
  }

  /** Entities one after another, until one is the end or is not there. */
  function ScanRest(text: string, off: nat): (r: Scanned)
    requires off <= |text|
    ensures off <= r.n <= |text| && (r.e == Infinite || r.e == Finish)
    ensures r.e == Finish ==> off < r.n
    decreases |text| - off, 1
  {
    var r := ScanObject(text, off);
    if r.e == Infinite || r.e == Finish then r else ScanRest(text, r.n)
  }

  // -------------------------------------------------------------------- looking up

  /** `btlist::bget`, from the first item on. */
  function Nth(text: string, off: nat, index: int): (r: Scanned)
    requires off <= |text|
    ensures r.n <= |text| && r.e != Finish
    decreases |text| - off
  {
    var r := ScanObject(text, off);
    if r.e == Infinite || r.e == Finish then Scanned(Infinite, r.n)
    else if index == 0 then r
    else Nth(text, r.n, index - 1)
  }

  predicate Titled(text: string, e: Entity, name: string) {
    e.StrEntity? && e.start + e.size <= |text| && text[e.start..e.start + e.size] == name
  }

  /** `btdict::bget`, from the first key on. */
  function Named(text: string, off: nat, name: string): (r: Scanned)
    requires off <= |text|
    ensures r.n <= |text| && r.e != Finish
    decreases |text| - off
  {
    var k := ScanObject(text, off);
    if k.e == Infinite || k.e == Finish then Scanned(Infinite, k.n)
    else
      var v := ScanObject(text, k.n);
      if v.e == Finish then Scanned(Infinite, v.n)
      else if Titled(text, k.e, name) then v
      else Named(text, v.n, name)
  }

  datatype Key = Name(name: string) | Index(index: int)

  /** `bget` of an entity: only containers of the right kind have anything inside. */
  function Inside(text: string, e: Entity, key: Key): (r: Entity)
    ensures r != Finish
  {
    match key
    case Index(index) => if e.ListEntity? && e.off < |text| then Nth(text, e.off + 1, index).e else Infinite
    case Name(name) => if e.DictEntity? && e.off < |text| then Named(text, e.off + 1, name).e else Infinite
  }

  /** A chain of `bget` calls, each on what the one before returned. */
  function Chain(text: string, e: Entity, path: seq<Key>): Entity
    decreases |path|
  {
    if path == [] then e else Chain(text, Inside(text, e, path[0]), path[1..])
  }

  // --------------------------------------------------------------- the tree's meaning

  datatype Found = Missing | Object(o: Obj)

  function FirstNamed(keys: seq<string>, values: seq<Obj>, name: string): Found
    requires |keys| == |values|
  {
    if keys == [] then Missing
    else if keys[0] == name then Object(values[0])
    else FirstNamed(keys[1..], values[1..], name)
  }

  function Member(o: Obj, key: Key): Found {
    match key
    case Index(index) => if o.List? && 0 <= index < |o.items| then Object(o.items[index]) else Missing
    case Name(name) => if o.Dict? && |o.keys| == |o.values| then FirstNamed(o.keys, o.values, name) else Missing
  }

  function Descend(o: Obj, path: seq<Key>): Found
    decreases |path|
  {
    if path == [] then Object(o)
    else
      match Member(o, path[0])
      case Missing => Missing
      case Object(x) => Descend(x, path[1..])
  }

  /** Trees the text can hold: no negative numbers, as many values as keys; the
      keys may come in any order and more than once. */
  ghost predicate Readable(o: Obj)
    decreases o
  {
    match o
    case Str(_) => true
    case Int(i) => i >= 0
    case List(items) => forall k :: 0 <= k < |items| ==> Readable(items[k])
    case Dict(keys, values) => |keys| == |values| && forall k :: 0 <= k < |values| ==> Readable(values[k])
  }

  /** The entity stands for the object. */
  ghost predicate Shows(text: string, e: Entity, o: Obj) {
    match o
    case Str(s) => Titled(text, e, s)
    case Int(i) => e.IntEntity? && e.value == i
    case List(_) => e.ListEntity? && e.len == |Print(o)| && Stands(text, e.off, Print(o))
    case Dict(_, _) => e.DictEntity? && e.len == |Print(o)| && Stands(text, e.off, Print(o))
  }

  // ------------------------------------------------------------------------- proofs

  lemma NumberEnds(text: string, off: nat, n: nat, c: char)
    requires Stands(text, off, Dec(n) + [c]) && !IsDigit(c)
    ensures var e := off + |Dec(n)|;
            e < |text| && DigitsEnd(text, off) == e && text[e] == c && Number(text[off..e]) == n && e > off
  {
    NumberOfDec(n);
    hide Dec, Number, DigitsEnd;
    var e := off + |Dec(n)|;
    StandsApart(text, off, Dec(n), [c]);
    StandsOne(text, e, c);
    DigitsEndIs(text, off, e);
  }

  lemma IntScans(text: string, off: nat, i: nat)
    requires Stands(text, off, Print(Int(i)))
    ensures off < |text| && text[off] == 'i' && ScanObject(text, off) == Scanned(IntEntity(i), off + |Print(Int(i))|)
  {
    hide Dec, Number, DigitsEnd, Stands, Digits;
    StandsApart(text, off, "i", PrintInt(i));
    StandsOne(text, off, 'i');
    NumberEnds(text, off + 1, i, 'e');
  }

  /** A string is read just when something follows it. */
  lemma StringScans(text: string, off: nat, s: string)
    requires Stands(text, off, PrintString(s))
    ensures off < |text| && IsDigit(text[off])
    ensures var n := off + |PrintString(s)|;
      if n < |text| then ScanObject(text, off) == Scanned(StrEntity(n - |s|, |s|), n) && Titled(text, ScanObject(text, off).e, s)
      else ScanObject(text, off).e == Infinite
  {
    hide Dec, Number, DigitsEnd, Stands, ScanString, ScanObject, Digits;
    StringSplit(text, off, s);
    NumberEnds(text, off, |s|, ':');
    StandsIs(text, off + |Dec(|s|)| + 1, s);
    NumberStarts(text, off);
    hide *;
    StringReads(text, off, off + |Dec(|s|)|, s);
  }

  lemma NumberStarts(text: string, off: nat)
    requires off < |text| && DigitsEnd(text, off) > off
    ensures IsDigit(text[off])
  {
  }

  lemma StringReads(text: string, off: nat, e: nat, s: string)
    requires off < e < |text| && DigitsEnd(text, off) == e && text[e] == ':' && IsDigit(text[off])
    requires Number(text[off..e]) == |s| && e + 1 + |s| <= |text| && text[e + 1..e + 1 + |s|] == s
    ensures var n := e + 1 + |s|;
      if n < |text| then ScanObject(text, off) == Scanned(StrEntity(n - |s|, |s|), n) && Titled(text, ScanObject(text, off).e, s)
      else ScanObject(text, off).e == Infinite
  {
    hide Number, DigitsEnd;
  }

  /** For one: any string that is the whole text. */
  lemma LoneStringUnseen(s: string)
    ensures ScanObject(PrintString(s), 0).e == Infinite
  {
    var text := PrintString(s);
    assert text[0..0 + |text|] == text;
    StringScans(text, 0, s);
  }

  /** `bobject` on the text of a tree takes exactly that text and gives the entity
      for it; only a string with nothing behind it is not seen. */
  lemma {:induction false} ScanIsExact(text: string, off: nat, o: Obj)
    requires Readable(o) && Stands(text, off, Print(o))
    ensures var r := ScanObject(text, off);
      if o.Str? && off + |Print(o)| == |text| then r.e == Infinite
      else Shows(text, r.e, o) && r.n == off + |Print(o)|
    ensures off < |text| && text[off] != 'e'
    decreases o
  {
    hide ScanInt, ScanString, PrintString, PrintInt, PrintItems, PrintPairs, Stands, Titled, ScanRest;
    match o
    case Str(s) =>
      StringScans(text, off, s);
      StandsEnd(text, off, PrintString(s));
    case Int(i) => IntScans(text, off, i);
    case List(items) =>
      StandsApart(text, off, "l", PrintItems(items));
      StandsOne(text, off, 'l');
      ItemsScan(text, off + 1, items);
    case Dict(keys, values) =>
      StandsApart(text, off, "d", PrintPairs(keys, values));
      StandsOne(text, off, 'd');
      PairsScan(text, off + 1, keys, values);
  }

  lemma StandsEnd(text: string, off: nat, s: string)
    requires Stands(text, off, s)
    ensures off + |s| <= |text|
  {
  }

  lemma {:induction false} ItemsScan(text: string, off: nat, items: seq<Obj>)
    requires forall k :: 0 <= k < |items| ==> Readable(items[k])
    requires Stands(text, off, PrintItems(items))
    ensures off < |text| && ScanRest(text, off) == Scanned(Finish, off + |PrintItems(items)|)
    decreases items, 1
  {
    hide Print, Stands, ScanObject, ScanRest;
    if items == [] {
      StandsOne(text, off, 'e');
      RestEnds(text, off);
    } else {
      hide PrintItems, Readable;
      ItemFirst(text, off, items);
      ShowsReal(text, ScanObject(text, off).e, items[0]);
      hide Shows;
      RestStep(text, off);
      ItemsScan(text, off + |Print(items[0])|, items[1..]);
    }
  }

  lemma RestEnds(text: string, off: nat)
    requires off < |text| && text[off] == 'e'
    ensures ScanRest(text, off) == Scanned(Finish, off + 1)
  {
  }

  lemma RestStep(text: string, off: nat)
    requires off <= |text| && ScanObject(text, off).e != Infinite && ScanObject(text, off).e != Finish
    ensures ScanRest(text, off) == ScanRest(text, ScanObject(text, off).n)
  {
  }

  /** The first item and the rest, with something behind the item. */
  lemma {:induction false} ItemFirst(text: string, off: nat, items: seq<Obj>)
    requires items != [] && Readable(items[0]) && Stands(text, off, PrintItems(items))
    ensures var n := off + |Print(items[0])|;
      && off < n < |text| && |PrintItems(items)| == |Print(items[0])| + |PrintItems(items[1..])|
      && Shows(text, ScanObject(text, off).e, items[0]) && ScanObject(text, off).n == n && Stands(text, n, PrintItems(items[1..]))
    decreases items, 0
  {
    hide ScanObject, Print, Stands, Shows, Readable;
    var rest := PrintItems(items[1..]);
    StandsApart(text, off, Print(items[0]), rest);
    StandsFirst(text, off + |Print(items[0])|, rest);
    ScanIsExact(text, off, items[0]);
  }

  lemma {:induction false} PairsScan(text: string, off: nat, keys: seq<string>, values: seq<Obj>)
    requires |keys| == |values| && forall k :: 0 <= k < |values| ==> Readable(values[k])
    requires Stands(text, off, PrintPairs(keys, values))
    ensures off < |text| && ScanRest(text, off) == Scanned(Finish, off + |PrintPairs(keys, values)|)
    decreases values, 1
  {
    hide Print, PrintString, Stands, Shows, ScanObject, ScanRest;
    if keys == [] {
      StandsOne(text, off, 'e');
      RestEnds(text, off);
    } else {
      hide PrintPairs, Readable;
      PairFirst(text, off, keys, values);
      var m := off + |PrintString(keys[0])|;
      ShowsReal(text, ScanObject(text, m).e, values[0]);
      RestStep(text, off);
      RestStep(text, m);
      PairsScan(text, m + |Print(values[0])|, keys[1..], values[1..]);
    }
  }

  lemma {:induction false} PairFirst(text: string, off: nat, keys: seq<string>, values: seq<Obj>)
    requires keys != [] && values != [] && Readable(values[0]) && Stands(text, off, PrintPairs(keys, values))
    ensures var m := off + |PrintString(keys[0])|;
      var n := m + |Print(values[0])|;
      && off < m < n < |text| && |PrintPairs(keys, values)| == n - off + |PrintPairs(keys[1..], values[1..])|
      && Titled(text, ScanObject(text, off).e, keys[0]) && ScanObject(text, off).n == m
      && Shows(text, ScanObject(text, m).e, values[0]) && ScanObject(text, m).n == n
      && Stands(text, n, PrintPairs(keys[1..], values[1..]))
    decreases values, 0
  {
    hide ScanObject, Print, PrintString, Stands, Shows, Readable, Titled;
    var k, v, rest := PrintString(keys[0]), Print(values[0]), PrintPairs(keys[1..], values[1..]);
    StandsApart(text, off, k, v + rest);
    StandsApart(text, off + |k|, v, rest);
    StandsFirst(text, off + |k|, v);
    StandsFirst(text, off + |k| + |v|, rest);
    StringScans(text, off, keys[0]);
    ScanIsExact(text, off + |k|, values[0]);
  }

  /** What shows an object is neither the end nor nothing. */
  lemma ShowsReal(text: string, e: Entity, o: Obj)
    requires Shows(text, e, o)
    ensures e != Infinite && e != Finish
  {
  }

  lemma {:induction false} NthShows(text: string, off: nat, items: seq<Obj>, index: int)
    requires forall k :: 0 <= k < |items| ==> Readable(items[k])
    requires Stands(text, off, PrintItems(items)) && off <= |text|
    ensures var e := Nth(text, off, index).e;
      if 0 <= index < |items| then Shows(text, e, items[index]) else e == Infinite
    decreases |items|
  {
    hide ScanObject, Nth, Print, Stands, Shows, Readable;
    if items == [] {
      StandsOne(text, off, 'e');
      NthEnds(text, off, index);
    } else {
      hide PrintItems;
      ItemFirst(text, off, items);
      ShowsReal(text, ScanObject(text, off).e, items[0]);
      NthStep(text, off, index);
      if index != 0 {
        NthShows(text, off + |Print(items[0])|, items[1..], index - 1);
      }
    }
  }

  lemma NthEnds(text: string, off: nat, index: int)
    requires off < |text| && text[off] == 'e'
    ensures Nth(text, off, index).e == Infinite
  {
  }

  lemma NthStep(text: string, off: nat, index: int)
    requires off <= |text| && ScanObject(text, off).e != Infinite && ScanObject(text, off).e != Finish
    ensures var r := ScanObject(text, off); Nth(text, off, index) == if index == 0 then r else Nth(text, r.n, index - 1)
  {
    hide ScanObject;
  }

  lemma OneTitle(text: string, e: Entity, a: string, b: string)
    requires Titled(text, e, a)
    ensures e != Infinite && e != Finish && (Titled(text, e, b) <==> a == b)
  {
  }

  lemma NamedStep(text: string, off: nat, name: string)
    requires off <= |text|
    requires var k := ScanObject(text, off);
             k.e != Infinite && k.e != Finish && ScanObject(text, k.n).e != Finish
    ensures var k := ScanObject(text, off);
            var v := ScanObject(text, k.n);
            Named(text, off, name) == if Titled(text, k.e, name) then v else Named(text, v.n, name)
  {
    hide ScanObject, Titled;
  }

  lemma {:induction false} NamedShows(text: string, off: nat, keys: seq<string>, values: seq<Obj>, name: string)
    requires |keys| == |values| && forall k :: 0 <= k < |values| ==> Readable(values[k])
    requires Stands(text, off, PrintPairs(keys, values)) && off <= |text|
    ensures var e := Named(text, off, name).e;
      match FirstNamed(keys, values, name)
      case Missing => e == Infinite
      case Object(x) => Readable(x) && Shows(text, e, x)
    decreases |keys|
  {
    hide ScanObject, Named, Print, PrintString, Stands, Shows, Titled, Readable;
    if keys == [] {
      StandsOne(text, off, 'e');
      NamedEnds(text, off, name);
    } else {
      hide PrintPairs;
      PairFirst(text, off, keys, values);
      var m := off + |PrintString(keys[0])|;
      ShowsReal(text, ScanObject(text, m).e, values[0]);
      OneTitle(text, ScanObject(text, off).e, keys[0], name);
      NamedStep(text, off, name);
      NamedShows(text, m + |Print(values[0])|, keys[1..], values[1..], name);
    }
  }

  lemma NamedEnds(text: string, off: nat, name: string)
    requires off < |text| && text[off] == 'e'
    ensures Named(text, off, name).e == Infinite
  {
  }

  lemma InsideShows(text: string, e: Entity, o: Obj, key: Key)
    requires Readable(o) && Shows(text, e, o)
    ensures match Member(o, key)
      case Missing => Inside(text, e, key) == Infinite
      case Object(x) => Readable(x) && Shows(text, Inside(text, e, key), x)
  {
    hide Nth, Named, Stands, PrintItems, PrintPairs;
    if o.List? && key.Index? {
      StandsApart(text, e.off, "l", PrintItems(o.items));
      StandsOne(text, e.off, 'l');
      NthShows(text, e.off + 1, o.items, key.index);
    } else if o.Dict? && key.Name? {
      StandsApart(text, e.off, "d", PrintPairs(o.keys, o.values));
      StandsOne(text, e.off, 'd');
      NamedShows(text, e.off + 1, o.keys, o.values, key.name);
    }
  }

  /** Any chain of look-ups finds what the tree has at that path, the first of
      equal keys each time, or nothing if it has nothing there. */
  lemma {:induction false} ChainIsDescend(text: string, e: Entity, o: Obj, path: seq<Key>)
    requires Readable(o) && Shows(text, e, o)
    ensures match Descend(o, path)
      case Missing => Chain(text, e, path) == Infinite
      case Object(x) => Shows(text, Chain(text, e, path), x)
    decreases |path|
  {
    if path != [] {
      InsideShows(text, e, o, path[0]);
      hide Inside, Shows, Readable, Member;
      match Member(o, path[0])
      case Missing => ChainOfNothing(text, path[1..]);
      case Object(x) => ChainIsDescend(text, Inside(text, e, path[0]), x, path[1..]);
    }
  }

  lemma {:induction false} ChainOfNothing(text: string, path: seq<Key>)
    ensures Chain(text, Infinite, path) == Infinite
    decreases |path|
  {
    if path != [] {
      ChainOfNothing(text, path[1..]);
    }
  }

  /** The whole: on loaded text that begins with a printed container, every chain
      from the root agrees with the full parse. */
  lemma LoadedAgrees(text: string, o: Obj, path: seq<Key>)
    requires Readable(o) && Stands(text, 0, Print(o)) && !(o.Str? && |Print(o)| == |text|)
    ensures match Descend(o, path)
      case Missing => Chain(text, ScanObject(text, 0).e, path) == Infinite
      case Object(x) => Shows(text, Chain(text, ScanObject(text, 0).e, path), x)
  {
    ScanIsExact(text, 0, o);
    ChainIsDescend(text, ScanObject(text, 0).e, o, path);
  }

  // ----------------------------------------------------------------- the code's form

  class Codec {
    const text: string
    var off: nat

    ghost predicate Valid()
      reads this
    {
      off <= |text|
    }

    /** `bload`. */
    constructor (buffer: string)
      ensures Valid() && text == buffer
    {
      text, off := buffer, 0;
    }

    method GetByte() returns (c: char)
      requires Valid()
      modifies this
      ensures Valid() && c == CharAt(text, old(off)) && off == Past(text, old(off))
    {
      c := '#';
      if off < |text| {
        c := text[off];
        off := off + 1;
      }
    }

    /** Reads on from a first byte `first`, got from `p`, while there are digits. */
    method ReadNumber(first: char, ghost p: nat) returns (value: nat, c: char)
      requires p <= |text| && first == CharAt(text, p) && off == Past(text, p)
      modifies this
      ensures var e := DigitsEnd(text, p);
        Valid() && c == CharAt(text, e) && off == Past(text, e) && value == Number(text[p..e])
    {
      value, c := 0, first;
      ghost var e := p;
      while IsDigit(c)
        invariant p <= e <= |text| && c == CharAt(text, e) && off == Past(text, e)
        invariant Digits(text[p..e]) && value == Number(text[p..e]) && DigitsEnd(text, p) == DigitsEnd(text, e)
        decreases |text| - e
      {
        NumberMore(text, p, e);
        value := value * 10 + (c as int - '0' as int);
        e := e + 1;
        c := GetByte();
      }
    }

    /** `bobject`: one entity, the cursor moving over all it holds. */
    method BObject() returns (r: Entity)
      requires Valid()
      modifies this
      ensures Valid() && Scanned(r, off) == ScanObject(text, old(off))
      decreases |text| - off, 0
    {
      hide Digits, DigitsEnd, Number;
      var soff := off;
      var c := GetByte();
      r := Infinite;
      if off == soff {
        return;
      }
      if c == 'd' {
        var done := ScanOver();
        if done {
          r := DictEntity(soff, off - soff);
        }
      } else if c == 'l' {
        var done := ScanOver();
        if done {
          r := ListEntity(soff, off - soff);
        }
      } else if c == 'i' {
        r := ReadInt(soff);
      } else if c == 'e' {
        r := Finish;
      } else {
        r := ReadString(c, soff);
      }
    }

    /** The loop over the inside of a container. */
    method ScanOver() returns (done: bool)
      requires Valid()
      modifies this
      ensures Valid() && ScanRest(text, old(off)) == Scanned(if done then Finish else Infinite, off)
      decreases |text| - off, 1
    {
      hide ScanObject;
      ghost var start := off;
      var obj := BObject();
      while obj != Infinite
        invariant Valid() && start <= off && (obj != Infinite ==> start < off)
        invariant ScanRest(text, start) == if obj == Infinite || obj == Finish then Scanned(obj, off) else ScanRest(text, off)
        decreases |text| - off, obj != Infinite
      {
        if obj == Finish {
          return true;
        }
        obj := BObject();
      }
      return false;
    }

    method ReadInt(ghost soff: nat) returns (r: Entity)
      requires soff < |text| && off == soff + 1
      modifies this
      ensures Valid() && Scanned(r, off) == ScanInt(text, soff)
    {
      hide Number, Digits;
      r := Infinite;
      var c := GetByte();
      if !IsDigit(c) {
        return;
      }
      var value;
      value, c := ReadNumber(c, soff + 1);
      if c == 'e' {
        r := IntEntity(value);
      }
    }

    method ReadString(first: char, ghost soff: nat) returns (r: Entity)
      requires soff < |text| && off == soff + 1 && first == text[soff]
      modifies this
      ensures Valid() && Scanned(r, off) == ScanString(text, soff)
    {
      hide Number, Digits;
      r := Infinite;
      if !IsDigit(first) {
        return;
      }
      var value, c := ReadNumber(first, soff);
      if c == ':' && off + value < |text| {
        r := StrEntity(off, value);
        off := off + value;
      }
    }

    method BObjectAt(offset: nat) returns (r: Entity)
      requires offset <= |text|
      modifies this
      ensures Valid() && Scanned(r, off) == ScanObject(text, offset)
    {
      off := offset;
      r := BObject();
    }

    /** `btlist::bget` of the list at `at`; wherever the cursor was, the result is
        the same. */
    method ListGet(at: nat, index: int) returns (r: Entity)
      requires at < |text|
      modifies this
      ensures Valid() && r == Nth(text, at + 1, index).e
    {
      hide ScanObject;
      r := Infinite;
      var k := index;
      var obj := BObjectAt(at + 1);
      while obj != Infinite
        invariant Valid() && r == Infinite
        invariant Nth(text, at + 1, index).e == Chosen(obj, k)
        decreases |text| - off, obj != Infinite
      {
        if obj == Finish {
          break;
        }
        if k == 0 {
          r := obj;
          break;
        }
        k := k - 1;
        obj := BObject();
      }
    }

    /** What the list loop returns when it holds `obj` and still counts `k`. */
    ghost function Chosen(obj: Entity, k: int): Entity
      requires Valid()
      reads this
    {
      if obj == Infinite || obj == Finish then Infinite else if k == 0 then obj else Nth(text, off, k - 1).e
    }

    /** `btdict::bget` of the dictionary at `at`. */
    method DictGet(at: nat, name: string) returns (r: Entity)
      requires at < |text|
      modifies this
      ensures Valid() && r == Named(text, at + 1, name).e
    {
      hide ScanObject;
      r := Infinite;
      var obj := BObjectAt(at + 1);
      while obj != Infinite
        invariant Valid() && r == Infinite
        invariant Named(text, at + 1, name).e == Picked(obj, name)
        decreases |text| - off, obj != Infinite
      {
        if obj == Finish {
          break;
        }
        var keyFound := Titled(text, obj, name);
        obj := BObject();
        if obj == Finish {
          break;
        }
        if keyFound {
          r := obj;
          break;
        }
        obj := BObject();
      }
    }

    /** What the dictionary loop returns when it holds the key `obj`. */
    ghost function Picked(obj: Entity, name: string): Entity
      requires Valid()
      reads this
    {
      if obj == Infinite || obj == Finish then Infinite
      else
        var v := ScanObject(text, off);
        if v.e == Finish then Infinite else if Titled(text, obj, name) then v.e else Named(text, v.n, name).e
    }

    /** A chain of calls from the root, the cursor left wherever each one puts it. */
    method Walk(path: seq<Key>) returns (r: Entity)
      requires Valid()
      modifies this
      ensures Valid() && r == Chain(text, ScanObject(text, 0).e, path)
    {
      hide ScanObject;
      r := BObjectAt(0);
      for i := 0 to |path|
        invariant Valid() && Chain(text, r, path[i..]) == Chain(text, ScanObject(text, 0).e, path)
      {
        assert path[i..][1..] == path[i + 1..];
        r := Get(r, path[i]);
      }
    }

    method Get(e: Entity, key: Key) returns (r: Entity)
      requires Valid()
      modifies this
      ensures Valid() && r == Inside(text, e, key)
    {
      hide Nth, Named;
      r := Infinite;
      match key
      case Index(index) =>
        if e.ListEntity? && e.off < |text| {
          r := ListGet(e.off, index);
        }
      case Name(name) =>
        if e.DictEntity? && e.off < |text| {
          r := DictGet(e.off, name);
        }
    }
  }

  lemma NumberMore(text: string, p: nat, e: nat)
    requires p <= e < |text| && Digits(text[p..e]) && IsDigit(text[e])
    ensures Digits(text[p..e + 1]) && Number(text[p..e + 1]) == Number(text[p..e]) * 10 + (text[e] as int - '0' as int)
    ensures DigitsEnd(text, e) == DigitsEnd(text, e + 1)
  {
    var d := text[p..e + 1];
    assert |d| - 1 == e - p && d[e - p] == text[e];
    assert d[..e - p] == text[p..e];
  }
}
