/** The bencode printer and parser, and when each undoes the other. */
module Bencode {
  import opened BtTypes

  /** Strings of this length or more stop the program. */
  const MAXSTRING := 8 * 1024 * 1024
  const INT64_MAX := 0x7fff_ffff_ffff_ffff
  /** Sizes of the buffers digits are scanned into, one of them for the final NUL. */
  const LENGTH_ROOM := 10
  const INT_ROOM := 25

  // ---------------------------------------------------------------- decimal numbers

  predicate IsDigit(c: char) {
    '0' <= c <= '9'
  }

  predicate Digits(d: string) {
    forall i :: 0 <= i < |d| ==> IsDigit(d[i])
  }

  function Dec(n: nat): (d: string)
    ensures d != [] && Digits(d)
  {
    if n < 10 then [('0' as int + n) as char] else Dec(n / 10) + [('0' as int + n % 10) as char]
  }

  function Number(d: string): nat
    requires Digits(d)
  {
    if d == [] then 0 else 10 * Number(d[..|d| - 1]) + (d[|d| - 1] as int - '0' as int)
  }

  /** Digits as the printer would write them. */
  predicate Plain(d: string) {
    d != [] && Digits(d) && (|d| > 1 ==> d[0] != '0')
  }

  lemma {:induction false} NumberOfDec(n: nat)
    ensures Number(Dec(n)) == n && Plain(Dec(n)) && (n > 0 ==> Dec(n)[0] != '0')
  {
    var d := Dec(n);
    if n >= 10 {
      NumberOfDec(n / 10);
      assert d[..|d| - 1] == Dec(n / 10);
    } else {
      assert d[..|d| - 1] == [];
    }
  }

  lemma {:induction false} DecOfNumber(d: string)
    requires Plain(d)
    ensures Dec(Number(d)) == d && (d[0] != '0' ==> Number(d) > 0)
  {
    var front := d[..|d| - 1];
    if |d| > 1 {
      DecOfNumber(front);
      assert d == front + [d[|d| - 1]];
    } else {
      assert front == [] && d == [d[0]];
    }
  }

  function Pow10(k: nat): nat {
    if k == 0 then 1 else 10 * Pow10(k - 1)
  }

  lemma {:induction false} DecLength(n: nat, k: nat)
    requires 0 < k && n < Pow10(k)
    ensures |Dec(n)| <= k
  {
    if n >= 10 && k > 1 {
      DecLength(n / 10, k - 1);
    }
  }

  lemma LengthFits(n: nat)
    ensures n < MAXSTRING ==> |Dec(n)| < LENGTH_ROOM
    ensures n <= INT64_MAX ==> |Dec(n)| < INT_ROOM
  {
    assert Pow10(8) == 100_000_000;
    assert Pow10(16) == Pow10(8) * 100_000_000;
    assert Pow10(19) == 1000 * Pow10(16);
    if n < MAXSTRING {
      DecLength(n, 8);
    } else if n <= INT64_MAX {
      DecLength(n, 19);
    }
  }

  // ------------------------------------------------------------------------ parsing

  /** `bts_scanbreak`: digits up to a break character, for which a NUL passes
      too; gives the place of the break. */
  function Scan(text: string, pos: nat, brk: char, room: nat): (r: MaybeIndex)
    requires pos <= |text|
    ensures r.At? ==> pos <= r.i < |text| && r.i - pos < room && Digits(text[pos..r.i]) && text[r.i] in [brk, NUL]
    decreases room
  {
    if room == 0 || pos == |text| then Absent
    else if text[pos] == brk || text[pos] == NUL then At(pos)
    else if !IsDigit(text[pos]) then Absent
    else Scan(text, pos + 1, brk, room - 1)
  }

  lemma {:induction false} ScanFinds(text: string, pos: nat, brk: char, room: nat, e: nat)
    requires pos <= e < |text| && e - pos < room && Digits(text[pos..e]) && text[e] in [brk, NUL] && !IsDigit(brk)
    ensures Scan(text, pos, brk, room) == At(e)
    decreases room
  {
    if pos < e {
      assert text[pos] == text[pos..e][0];
      assert text[pos + 1..e] == text[pos..e][1..];
      ScanFinds(text, pos + 1, brk, room - 1, e);
    }
  }

  /** What a get call comes to: an object and where its text ends, an error, or
      the length assertion stopping the program. */
  datatype Parsed = Good(o: Obj, n: nat) | Bad | Died

  function GetString(text: string, pos: nat): (r: Parsed)
    requires pos <= |text|
    ensures r.Good? ==> pos < r.n <= |text| && r.o.Str? && |r.o.s| < MAXSTRING
  {
    match Scan(text, pos, ':', LENGTH_ROOM)
    case Absent => Bad
    case At(e) =>
      var n := e + 1 + Number(text[pos..e]);
      if Number(text[pos..e]) >= MAXSTRING then Died
      else if n > |text| then Bad
      else Good(Str(text[e + 1..n]), n)
  }

  function GetInt(text: string, pos: nat): (r: Parsed)
    requires pos < |text| && text[pos] == 'i'
    ensures r.Good? ==> pos < r.n <= |text| && r.o.Int? && 0 <= r.o.i <= INT64_MAX
  {
    match Scan(text, pos + 1, 'e', INT_ROOM)
    case Absent => Bad
    case At(e) =>
      var v := Number(text[pos + 1..e]);
      Good(Int(if v > INT64_MAX then INT64_MAX else v), e + 1)
  }

  ghost function Parse(text: string, pos: nat): (r: Parsed)
    requires pos <= |text|
    ensures r.Good? ==> pos < r.n <= |text|
    decreases |text| - pos, 0
  {
    if pos == |text| then Bad
    else if text[pos] == 'd' then GetPairs(text, pos + 1, [], [])
    else if text[pos] == 'l' then GetItems(text, pos + 1, [])
    else if text[pos] == 'i' then GetInt(text, pos)
    else if IsDigit(text[pos]) then GetString(text, pos)
    else Bad
  }

  /** The rest of a list, `got` being its items so far. */
  ghost function GetItems(text: string, pos: nat, got: seq<Obj>): (r: Parsed)
    requires pos <= |text|
    ensures r.Good? ==> pos < r.n <= |text|
    decreases |text| - pos, 1
  {
    if pos < |text| && text[pos] == 'e' then Good(List(got), pos + 1)
    else
      match Parse(text, pos)
      case Good(o, n) => GetItems(text, n, got + [o])
      case other => other
  }

  /** The rest of a dictionary, whose entries so far are given. */
  ghost function GetPairs(text: string, pos: nat, keys: seq<string>, values: seq<Obj>): (r: Parsed)
    requires pos <= |text| && |keys| == |values|
    ensures r.Good? ==> pos < r.n <= |text|
    decreases |text| - pos, 1
  {
    if pos < |text| && text[pos] == 'e' then Good(Dict(keys, values), pos + 1)
    else
      match GetString(text, pos)
      case Good(k, m) =>
        (match Parse(text, m)
         case Good(o, n) =>
           var p := Place(keys, k.s);
           if HasKey(keys, k.s) then Bad else GetPairs(text, n, Inserted(keys, p, k.s), Inserted(values, p, o))
         case other => other)
      case other => other
  }

  // ----------------------------------------------------------------------- printing

  function PrintString(s: string): string {
    Dec(|s|) + (":" + s)
  }

  function PrintInt(i: int): string {
    (if i < 0 then "-" + Dec(-i) else Dec(i)) + "e"
  }

  function Print(o: Obj): (t: string)
    ensures t != [] && t[0] != 'e'
    decreases o
  {
    match o
    case Str(s) => PrintString(s)
    case Int(i) => "i" + PrintInt(i)
    case List(items) => "l" + PrintItems(items)
    case Dict(keys, values) => "d" + PrintPairs(keys, values)
  }

  /** The items of a list and its closing `e`. */
  function PrintItems(items: seq<Obj>): string
    decreases items
  {
    if items == [] then "e" else Print(items[0]) + PrintItems(items[1..])
  }

  /** The entries of a dictionary and its closing `e`. */
  function PrintPairs(keys: seq<string>, values: seq<Obj>): string
    decreases values
  {
    if keys == [] || values == [] then "e"
    else PrintString(keys[0]) + (Print(values[0]) + PrintPairs(keys[1..], values[1..]))
  }

  /** The objects that can be read: nothing negative or overlong, and
      dictionaries in order. */
  ghost predicate Printable(o: Obj)
    decreases o
  {
    match o
    case Str(s) => |s| < MAXSTRING
    case Int(i) => 0 <= i <= INT64_MAX
    case List(items) => forall k :: 0 <= k < |items| ==> Printable(items[k])
    case Dict(keys, values) =>
      && |keys| == |values| && Sorted(keys)
      && (forall k :: 0 <= k < |keys| ==> |keys[k]| < MAXSTRING)
      && (forall k :: 0 <= k < |values| ==> Printable(values[k]))
  }

  /** `s` stands at `pos` in the text. */
  ghost predicate Stands(text: string, pos: nat, s: string) {
    pos + |s| <= |text| && text[pos..pos + |s|] == s
  }

  lemma StandsApart(text: string, pos: nat, a: string, b: string)
    ensures Stands(text, pos, a + b) <==> Stands(text, pos, a) && Stands(text, pos + |a|, b)
  {
    if Stands(text, pos, a + b) {
      var t := text[pos..pos + |a + b|];
      assert text[pos..pos + |a|] == t[..|a|] && t[..|a|] == a;
      assert text[pos + |a|..pos + |a| + |b|] == t[|a|..] && t[|a|..] == b;
    }
    if Stands(text, pos, a) && Stands(text, pos + |a|, b) {
      assert text[pos..pos + |a| + |b|] == text[pos..pos + |a|] + text[pos + |a|..pos + |a| + |b|];
    }
  }

  lemma StandsOne(text: string, pos: nat, c: char)
    ensures Stands(text, pos, [c]) <==> pos < |text| && text[pos] == c
  {
    if pos < |text| {
      assert text[pos..pos + 1] == [text[pos]];
    }
  }

  lemma StandsFirst(text: string, pos: nat, s: string)
    requires s != [] && Stands(text, pos, s)
    ensures pos < |text| && text[pos] == s[0]
  {
    assert text[pos] == text[pos..pos + |s|][0];
  }

  // --------------------------------------------- reading back what has been printed

  lemma Scanned(text: string, pos: nat, n: nat, brk: char, room: nat)
    requires Stands(text, pos, Dec(n) + [brk]) && |Dec(n)| < room && !IsDigit(brk)
    ensures var e := pos + |Dec(n)|;
            && e < |text| && text[e] == brk && text[pos..e] == Dec(n) && Scan(text, pos, brk, room) == At(e)
  {
    var d := Dec(n);
    var e := pos + |d|;
    StandsApart(text, pos, d, [brk]);
    StandsOne(text, e, brk);
    hide Dec, Scan;
    ScanFinds(text, pos, brk, room, e);
  }

  lemma StringBack(text: string, pos: nat, s: string)
    requires |s| < MAXSTRING && Stands(text, pos, PrintString(s))
    ensures GetString(text, pos) == Good(Str(s), pos + |PrintString(s)|)
    ensures StrictString(text, pos) == GetString(text, pos)
    ensures IsDigit(text[pos])
  {
    hide Dec, Number, Scan, Stands, GetString, StrictString;
    var d := Dec(|s|);
    LengthFits(|s|);
    NumberOfDec(|s|);
    StandsFirst(text, pos, PrintString(s));
    StringSplit(text, pos, s);
    Scanned(text, pos, |s|, ':', LENGTH_ROOM);
    StandsIs(text, pos + |d| + 1, s);
    StringRead(text, pos, pos + |d|);
    hide Digits;
    assert PrintString(s)[0] == d[0];
  }

  lemma StringSplit(text: string, pos: nat, s: string)
    requires Stands(text, pos, PrintString(s))
    ensures Stands(text, pos, Dec(|s|) + ":") && Stands(text, pos + |Dec(|s|)| + 1, s)
  {
    hide Dec, Stands;
    var d := Dec(|s|);
    StandsApart(text, pos, d, ":" + s);
    StandsApart(text, pos + |d|, ":", s);
    StandsApart(text, pos, d, ":");
  }

  lemma StringRead(text: string, pos: nat, e: nat)
    requires pos < e < |text| && Scan(text, pos, ':', LENGTH_ROOM) == At(e) && text[e] == ':' && Plain(text[pos..e])
    requires Number(text[pos..e]) < MAXSTRING && e + 1 + Number(text[pos..e]) <= |text|
    ensures var n := e + 1 + Number(text[pos..e]);
            GetString(text, pos) == Good(Str(text[e + 1..n]), n) && StrictString(text, pos) == GetString(text, pos)
  {
    hide Number, Scan, Digits, Plain;
  }

  lemma StandsIs(text: string, pos: nat, s: string)
    requires Stands(text, pos, s)
    ensures pos + |s| <= |text| && text[pos..pos + |s|] == s
  {
  }

  lemma IntBack(text: string, pos: nat, i: nat)
    requires i <= INT64_MAX && Stands(text, pos, "i" + PrintInt(i))
    ensures text[pos] == 'i' && GetInt(text, pos) == Good(Int(i), pos + 1 + |PrintInt(i)|)
    ensures StrictInt(text, pos) == At(pos + 1 + |PrintInt(i)|)
  {
    hide Dec, Number, Scan, Stands, Digits;
    LengthFits(i);
    NumberOfDec(i);
    StandsApart(text, pos, "i", PrintInt(i));
    StandsOne(text, pos, 'i');
    Scanned(text, pos + 1, i, 'e', INT_ROOM);
    IntRead(text, pos, pos + 1 + |Dec(i)|);
  }

  lemma IntRead(text: string, pos: nat, e: nat)
    requires pos < e < |text| && text[pos] == 'i' && Scan(text, pos + 1, 'e', INT_ROOM) == At(e) && text[e] == 'e'
    requires Plain(text[pos + 1..e]) && Number(text[pos + 1..e]) <= INT64_MAX
    ensures GetInt(text, pos) == Good(Int(Number(text[pos + 1..e])), e + 1)
    ensures StrictInt(text, pos) == At(e + 1)
  {
    hide Number, Scan, Digits, Plain;
  }

  /** Parsing a printed object gives it back and takes exactly its text, which
      the strict grammar accepts. */
  lemma {:induction false} ParsePrint(text: string, pos: nat, o: Obj)
    requires Printable(o) && Stands(text, pos, Print(o))
    ensures Parse(text, pos) == Good(o, pos + |Print(o)|)
    ensures Strict(text, pos) == At(pos + |Print(o)|)
    decreases o
  {
    hide GetString, GetInt, Scan, Dec, PrintString, PrintInt, StrictString, StrictInt, Sorted, HasKey, Place,
      Stands, GetItems, GetPairs, StrictItems, StrictPairs, PrintItems, PrintPairs;
    match o
    case Str(s) => StringBack(text, pos, s);
    case Int(i) => IntBack(text, pos, i);
    case List(items) =>
      StandsApart(text, pos, "l", PrintItems(items));
      StandsOne(text, pos, 'l');
      ItemsBack(text, pos + 1, [], items);
      assert [] + items == items;
    case Dict(keys, values) =>
      StandsApart(text, pos, "d", PrintPairs(keys, values));
      StandsOne(text, pos, 'd');
      assert [] + keys == keys && [] + values == values;
      PairsBack(text, pos + 1, [], [], keys, values);
  }

  lemma {:induction false} ItemsBack(text: string, pos: nat, got: seq<Obj>, items: seq<Obj>)
    requires forall k :: 0 <= k < |items| ==> Printable(items[k])
    requires Stands(text, pos, PrintItems(items))
    ensures GetItems(text, pos, got) == Good(List(got + items), pos + |PrintItems(items)|)
    ensures StrictItems(text, pos) == At(pos + |PrintItems(items)|)
    decreases items
  {
    hide GetString, GetInt, Scan, Dec, StrictString, Printable, Print, Parse, Strict, Stands;
    if items == [] {
      StandsOne(text, pos, 'e');
      assert got + items == got;
    } else {
      StandsApart(text, pos, Print(items[0]), PrintItems(items[1..]));
      StandsFirst(text, pos, Print(items[0]));
      ParsePrint(text, pos, items[0]);
      ItemsBack(text, pos + |Print(items[0])|, got + [items[0]], items[1..]);
      assert got + [items[0]] + items[1..] == got + items;
    }
  }

  lemma {:induction false} PairsBack(text: string, pos: nat, ks: seq<string>, vs: seq<Obj>, keys: seq<string>,
        values: seq<Obj>)
    requires |ks| == |vs| && |keys| == |values| && Sorted(ks + keys)
    requires forall k :: 0 <= k < |keys| ==> |keys[k]| < MAXSTRING
    requires forall k :: 0 <= k < |values| ==> Printable(values[k])
    requires Stands(text, pos, PrintPairs(keys, values))
    ensures GetPairs(text, pos, ks, vs) == Good(Dict(ks + keys, vs + values), pos + |PrintPairs(keys, values)|)
    ensures StrictPairs(text, pos, ks) == At(pos + |PrintPairs(keys, values)|)
    decreases values
  {
    hide GetString, Scan, Dec, StrictString, Sorted, HasKey, Place, Inserted, Parse, Strict, Print,
      PrintString, Order, Stands, Printable;
    if keys == [] {
      StandsOne(text, pos, 'e');
      assert ks + keys == ks && vs + values == vs;
    } else {
      hide GetPairs, StrictPairs;
      var k, v := PrintString(keys[0]), Print(values[0]);
      var rest := PrintPairs(keys[1..], values[1..]);
      StandsApart(text, pos, k, v + rest);
      StandsApart(text, pos + |k|, v, rest);
      StringBack(text, pos, keys[0]);
      ParsePrint(text, pos + |k|, values[0]);
      LastPlace(ks, keys);
      PairsStep(text, pos, ks, vs, keys[0], values[0]);
      assert ks + [keys[0]] + keys[1..] == ks + keys;
      assert vs + [values[0]] + values[1..] == vs + values;
      PairsBack(text, pos + |k| + |v|, ks + [keys[0]], vs + [values[0]], keys[1..], values[1..]);
      assert |PrintPairs(keys, values)| == |k| + |v| + |rest|;
    }
  }

  /** Reading one more entry, whose key goes last. */
  lemma PairsStep(text: string, pos: nat, ks: seq<string>, vs: seq<Obj>, k: string, v: Obj)
    requires |ks| == |vs| && pos < |text| && IsDigit(text[pos])
    requires var s := GetString(text, pos);
             && s.Good? && s.o == Str(k) && StrictString(text, pos) == s
             && Parse(text, s.n).Good? && Parse(text, s.n).o == v && Strict(text, s.n) == At(Parse(text, s.n).n)
    requires Place(ks, k) == |ks| && !HasKey(ks, k) && (ks != [] ==> Order(ks[|ks| - 1], k) < 0)
    ensures var n := Parse(text, GetString(text, pos).n).n;
            && GetPairs(text, pos, ks, vs) == GetPairs(text, n, ks + [k], vs + [v])
            && StrictPairs(text, pos, ks) == StrictPairs(text, n, ks + [k])
  {
    hide GetString, StrictString, Strict, Parse, Order, Place, HasKey;
    InsertedLast(ks, k);
    InsertedLast(vs, v);
  }

  lemma InsertedLast<T>(s: seq<T>, x: T)
    ensures Inserted(s, |s|, x) == s + [x]
  {
    assert s[..|s|] == s && s[|s|..] == [];
  }

  /** A key that follows all the others goes last. */
  lemma LastPlace(ks: seq<string>, keys: seq<string>)
    requires keys != [] && Sorted(ks + keys)
    ensures Place(ks, keys[0]) == |ks| && !HasKey(ks, keys[0])
    ensures ks != [] ==> Order(ks[|ks| - 1], keys[0]) < 0
  {
    var all := ks + keys;
    assert all[|ks|] == keys[0];
    forall i | 0 <= i < |ks|
      ensures Order(ks[i], keys[0]) < 0 && Order(keys[0], ks[i]) != 0
    {
      assert all[i] == ks[i];
      OrderFlips(ks[i], keys[0]);
    }
  }

  // ------------------------------------------------------ canonical text, and only it

  /** The strict grammar: plain numbers closed by their own break character, and
      keys that strictly increase. Gives the end of the text it accepts. */
  function StrictString(text: string, pos: nat): (r: Parsed)
    requires pos <= |text|
    ensures r.Good? ==> pos < r.n <= |text| && r.o.Str?
  {
    match Scan(text, pos, ':', LENGTH_ROOM)
    case Absent => Bad
    case At(e) => if text[e] == ':' && Plain(text[pos..e]) then GetString(text, pos) else Bad
  }

  function StrictInt(text: string, pos: nat): (r: MaybeIndex)
    requires pos < |text| && text[pos] == 'i'
    ensures r.At? ==> pos < r.i <= |text|
  {
    match Scan(text, pos + 1, 'e', INT_ROOM)
    case Absent => Absent
    case At(e) =>
      var d := text[pos + 1..e];
      if text[e] == 'e' && Plain(d) && Number(d) <= INT64_MAX then At(e + 1) else Absent
  }

  function Strict(text: string, pos: nat): (r: MaybeIndex)
    requires pos <= |text|
    ensures r.At? ==> pos < r.i <= |text|
    decreases |text| - pos, 0
  {
    if pos == |text| then Absent
    else if text[pos] == 'd' then StrictPairs(text, pos + 1, [])
    else if text[pos] == 'l' then StrictItems(text, pos + 1)
    else if text[pos] == 'i' then StrictInt(text, pos)
    else
      match StrictString(text, pos)
      case Good(_, n) => At(n)
      case _ => Absent
  }

  function StrictItems(text: string, pos: nat): (r: MaybeIndex)
    requires pos <= |text|
    ensures r.At? ==> pos < r.i <= |text|
    decreases |text| - pos, 1
  {
    if pos < |text| && text[pos] == 'e' then At(pos + 1)
    else
      match Strict(text, pos)
      case At(n) => StrictItems(text, n)
      case Absent => Absent
  }

  /** `before` holds the keys already seen. */
  function StrictPairs(text: string, pos: nat, before: seq<string>): (r: MaybeIndex)
    requires pos <= |text|
    ensures r.At? ==> pos < r.i <= |text|
    decreases |text| - pos, 1
  {
    if pos < |text| && text[pos] == 'e' then At(pos + 1)
    else
      match StrictString(text, pos)
      case Good(k, m) =>
        if before != [] && Order(before[|before| - 1], k.s) >= 0 then Absent
        else
          (match Strict(text, m)
           case At(n) => StrictPairs(text, n, before + [k.s])
           case Absent => Absent)
      case _ => Absent
  }

  /** Where `r` says the text of `r.o` is, its printing stands. */
  ghost predicate PrintedBack(text: string, pos: nat, r: Parsed) {
    r.Good? && r.n == pos + |Print(r.o)| && Stands(text, pos, Print(r.o))
  }

  lemma StringStrict(text: string, pos: nat)
    requires pos <= |text| && StrictString(text, pos).Good?
    ensures GetString(text, pos) == StrictString(text, pos) && IsDigit(text[pos])
    ensures PrintedBack(text, pos, GetString(text, pos))
  {
    hide Scan, Number, Dec, GetString, StrictString, Plain, Digits;
    var e, s := StrictParts(text, pos);
    DecOfNumber(text[pos..e]);
    assert Stands(text, pos, Dec(|s|)) && Stands(text, e + 1, s);
    hide Stands;
    StringStands(text, pos, s);
  }

  /** Where the length of a strict string ends, and the string. */
  lemma StrictParts(text: string, pos: nat) returns (e: nat, s: string)
    requires pos <= |text| && StrictString(text, pos).Good?
    ensures pos < e && e + 1 + |s| <= |text| && text[e] == ':' && text[e + 1..e + 1 + |s|] == s
    ensures Plain(text[pos..e]) && IsDigit(text[pos]) && Number(text[pos..e]) == |s|
    ensures GetString(text, pos) == StrictString(text, pos) == Good(Str(s), e + 1 + |s|)
  {
    e := Scan(text, pos, ':', LENGTH_ROOM).i;
    hide Scan, Number;
    var d := text[pos..e];
    assert Plain(d) && text[pos] == d[0];
    hide Plain, Digits;
    s := GetString(text, pos).o.s;
  }

  lemma StringStands(text: string, pos: nat, s: string)
    requires Stands(text, pos, Dec(|s|)) && Stands(text, pos + |Dec(|s|)| + 1, s)
    requires pos + |Dec(|s|)| < |text| && text[pos + |Dec(|s|)|] == ':'
    ensures Stands(text, pos, PrintString(s)) && |PrintString(s)| == |Dec(|s|)| + 1 + |s|
  {
    hide Stands, Dec, Digits;
    var e := pos + |Dec(|s|)|;
    StandsOne(text, e, ':');
    StandsApart(text, e, ":", s);
    StandsApart(text, pos, Dec(|s|), ":" + s);
  }

  lemma IntStrict(text: string, pos: nat)
    requires pos < |text| && text[pos] == 'i' && StrictInt(text, pos).At?
    ensures PrintedBack(text, pos, GetInt(text, pos)) && StrictInt(text, pos) == At(GetInt(text, pos).n)
  {
    var e := Scan(text, pos + 1, 'e', INT_ROOM).i;
    var v := Number(text[pos + 1..e]);
    hide Scan, Number;
    IntRead(text, pos, e);
    DecOfNumber(text[pos + 1..e]);
    hide GetInt, StrictInt, Digits;
    assert Stands(text, pos + 1, Dec(v));
    hide Dec, Stands;
    IntStands(text, pos, v);
  }

  lemma IntStands(text: string, pos: nat, v: nat)
    requires pos < |text| && text[pos] == 'i' && Stands(text, pos + 1, Dec(v))
    requires pos + 1 + |Dec(v)| < |text| && text[pos + 1 + |Dec(v)|] == 'e'
    ensures Stands(text, pos, Print(Int(v))) && |Print(Int(v))| == |Dec(v)| + 2
  {
    hide Stands, Dec, Digits;
    StandsOne(text, pos + 1 + |Dec(v)|, 'e');
    StandsApart(text, pos + 1, Dec(v), "e");
    StandsOne(text, pos, 'i');
    StandsApart(text, pos, "i", PrintInt(v));
  }

  /** Text of the strict grammar is parsed, and printed back byte for byte. */
  lemma {:induction false} StrictParses(text: string, pos: nat)
    requires pos <= |text| && Strict(text, pos).At?
    ensures PrintedBack(text, pos, Parse(text, pos)) && Strict(text, pos) == At(Parse(text, pos).n)
    decreases |text| - pos, 0
  {
    hide GetString, StrictString, GetInt, StrictInt, Dec, GetPairs, GetItems, StrictPairs, StrictItems,
      PrintPairs, PrintItems, Scan, Stands;
    var n := Strict(text, pos).i;
    StandsOne(text, pos, text[pos]);
    if text[pos] == 'd' {
      var keys, values := PairsStrict(text, pos + 1, n, [], []);
      assert [] + keys == keys && [] + values == values;
      StandsApart(text, pos, "d", PrintPairs(keys, values));
    } else if text[pos] == 'l' {
      var items := ItemsStrict(text, pos + 1, n, []);
      assert [] + items == items;
      StandsApart(text, pos, "l", PrintItems(items));
    } else if text[pos] == 'i' {
      IntStrict(text, pos);
    } else {
      StringStrict(text, pos);
    }
  }

  lemma {:induction false} ItemsStrict(text: string, pos: nat, n: nat, got: seq<Obj>) returns (items: seq<Obj>)
    requires pos <= |text| && StrictItems(text, pos) == At(n)
    ensures GetItems(text, pos, got) == Good(List(got + items), n)
    ensures Stands(text, pos, PrintItems(items)) && n == pos + |PrintItems(items)|
    decreases |text| - pos, 1
  {
    hide Strict, Print, Parse, Stands;
    if pos < |text| && text[pos] == 'e' {
      items := [];
      StandsOne(text, pos, 'e');
      assert got + items == got;
    } else {
      StrictParses(text, pos);
      var r := Parse(text, pos);
      var rest := ItemsStrict(text, r.n, n, got + [r.o]);
      items := [r.o] + rest;
      assert items[1..] == rest;
      StandsApart(text, pos, Print(r.o), PrintItems(rest));
      assert got + [r.o] + rest == got + items;
    }
  }

  lemma {:induction false} PairsStrict(text: string, pos: nat, n: nat, ks: seq<string>, vs: seq<Obj>)
      returns (keys: seq<string>, values: seq<Obj>)
    requires pos <= |text| && |ks| == |vs| && Sorted(ks) && StrictPairs(text, pos, ks) == At(n)
    ensures |keys| == |values| && GetPairs(text, pos, ks, vs) == Good(Dict(ks + keys, vs + values), n)
    ensures Stands(text, pos, PrintPairs(keys, values)) && n == pos + |PrintPairs(keys, values)|
    decreases |text| - pos, 1
  {
    hide GetString, StrictString, Strict, Parse, Print, PrintString, Place, HasKey, Inserted, Order, Scan, Stands;
    if pos < |text| && text[pos] == 'e' {
      keys, values := [], [];
      StandsOne(text, pos, 'e');
      assert ks + keys == ks && vs + values == vs;
    } else {
      var k, v, m := StrictStep(text, pos, n, ks, vs);
      hide GetPairs, StrictPairs, Sorted;
      keys, values := PairsStrict(text, m, n, ks + [k], vs + [v]);
      var rest := PrintPairs(keys, values);
      StandsApart(text, pos + |PrintString(k)|, Print(v), rest);
      StandsApart(text, pos, PrintString(k), Print(v) + rest);
      assert ks + [k] + keys == ks + ([k] + keys) && vs + [v] + values == vs + ([v] + values);
      keys, values := [k] + keys, [v] + values;
      PairsCons(keys, values);
    }
  }

  lemma PairsCons(keys: seq<string>, values: seq<Obj>)
    requires keys != [] && values != []
    ensures PrintPairs(keys, values) == PrintString(keys[0]) + (Print(values[0]) + PrintPairs(keys[1..], values[1..]))
  {
  }

  lemma {:induction false} StrictStep(text: string, pos: nat, n: nat, ks: seq<string>, vs: seq<Obj>)
      returns (k: string, v: Obj, m: nat)
    requires pos <= |text| && |ks| == |vs| && Sorted(ks) && StrictPairs(text, pos, ks) == At(n)
    requires pos == |text| || text[pos] != 'e'
    ensures Stands(text, pos, PrintString(k)) && Stands(text, pos + |PrintString(k)|, Print(v))
    ensures m == pos + |PrintString(k)| + |Print(v)| && pos < m <= |text|
    ensures Sorted(ks + [k]) && StrictPairs(text, m, ks + [k]) == At(n)
    ensures GetPairs(text, pos, ks, vs) == GetPairs(text, m, ks + [k], vs + [v])
    decreases |text| - pos, 0
  {
    hide GetString, StrictString, Strict, Parse, PrintString, Place, HasKey, Sorted, Stands;
    var s := StrictString(text, pos);
    StringStrict(text, pos);
    StrictParses(text, s.n);
    k, v, m := s.o.s, Parse(text, s.n).o, Parse(text, s.n).n;
    SortedLast(ks, k);
    LastPlace(ks, [k]);
    PairsStep(text, pos, ks, vs, k, v);
    hide GetPairs, Order;
  }

  lemma SortedLast(ks: seq<string>, k: string)
    requires Sorted(ks) && (ks != [] ==> Order(ks[|ks| - 1], k) < 0)
    ensures Sorted(ks + [k])
  {
    forall i | 0 <= i < |ks|
      ensures Order(ks[i], k) < 0
    {
      if i < |ks| - 1 {
        OrderTrans(ks[i], ks[|ks| - 1], k);
      }
    }
  }

  // -------------------------------------------------------------- what can be parsed

  lemma {:induction false} ParsedIsPrintable(text: string, pos: nat)
    requires pos <= |text| && Parse(text, pos).Good?
    ensures Printable(Parse(text, pos).o)
    decreases |text| - pos, 0
  {
    hide GetString, GetInt;
    if text[pos] == 'd' {
      PairsPrintable(text, pos + 1, [], []);
    } else if text[pos] == 'l' {
      ItemsPrintable(text, pos + 1, []);
    }
  }

  lemma {:induction false} ItemsPrintable(text: string, pos: nat, got: seq<Obj>)
    requires pos <= |text| && GetItems(text, pos, got).Good? && Printable(List(got))
    ensures Printable(GetItems(text, pos, got).o)
    decreases |text| - pos, 1
  {
    if pos == |text| || text[pos] != 'e' {
      ParsedIsPrintable(text, pos);
      var r := Parse(text, pos);
      hide Parse;
      ItemsPrintable(text, r.n, got + [r.o]);
    }
  }

  lemma {:induction false} PairsPrintable(text: string, pos: nat, keys: seq<string>, values: seq<Obj>)
    requires pos <= |text| && |keys| == |values| && GetPairs(text, pos, keys, values).Good?
    requires Printable(Dict(keys, values))
    ensures Printable(GetPairs(text, pos, keys, values).o)
    decreases |text| - pos, 1
  {
    if pos == |text| || text[pos] != 'e' {
      hide GetString, Sorted, HasKey, Place, Parse;
      var k := GetString(text, pos);
      ParsedIsPrintable(text, k.n);
      InsertSorted(keys, k.o.s);
      var p, r := Place(keys, k.o.s), Parse(text, k.n);
      InsertedAll(keys, p, k.o.s, s => |s| < MAXSTRING);
      InsertedAll(values, p, r.o, o => Printable(o));
      PairsPrintable(text, r.n, Inserted(keys, p, k.o.s), Inserted(values, p, r.o));
    }
  }

  lemma InsertedAll<T>(s: seq<T>, p: nat, x: T, f: T -> bool)
    requires p <= |s| && f(x) && forall k :: 0 <= k < |s| ==> f(s[k])
    ensures forall k :: 0 <= k < |s| + 1 ==> f(Inserted(s, p, x)[k])
  {
  }

  // ------------------------------------------------------------------- main theorems

  /** Just the printable objects survive a trip through text. */
  lemma RoundTripIff(o: Obj)
    ensures Parse(Print(o), 0) == Good(o, |Print(o)|) <==> Printable(o)
  {
    var t := Print(o);
    if Printable(o) {
      assert t[0..0 + |t|] == t;
      ParsePrint(t, 0, o);
    } else if Parse(t, 0).Good? {
      ParsedIsPrintable(t, 0);
    }
  }

  /** A parsed object prints as the bytes it was read from, which is what the
      info-hash takes, just when those bytes are of the strict grammar. */
  lemma ReprintIff(text: string, pos: nat)
    requires pos <= |text| && Parse(text, pos).Good?
    ensures var r := Parse(text, pos);
            Print(r.o) == text[pos..r.n] <==> Strict(text, pos) == At(r.n)
  {
    var r := Parse(text, pos);
    hide Parse, Strict, Print, Printable;
    if Print(r.o) == text[pos..r.n] {
      ParsedIsPrintable(text, pos);
      ParsePrint(text, pos, r.o);
    }
    if Strict(text, pos).At? {
      StrictParses(text, pos);
    }
  }

  lemma {:induction false} EntryStands(text: string, pos: nat, keys: seq<string>, values: seq<Obj>, i: nat)
      returns (q: nat)
    requires i < |keys| == |values| && Stands(text, pos, PrintPairs(keys, values))
    ensures q >= pos && Stands(text, q, PrintString(keys[i]))
    ensures Stands(text, q + |PrintString(keys[i])|, Print(values[i]))
    decreases i
  {
    hide Stands, PrintString, Print;
    var k, v, rest := PrintString(keys[0]), Print(values[0]), PrintPairs(keys[1..], values[1..]);
    StandsApart(text, pos, k, v + rest);
    StandsApart(text, pos + |k|, v, rest);
    q := pos;
    if i > 0 {
      q := EntryStands(text, pos + |k| + |v|, keys[1..], values[1..], i - 1);
    }
  }

  /** In a torrent file of the strict grammar each value, the hashed `info` one
      among them, prints as the very bytes that follow its key in the file. */
  lemma ValueIsItsBytes(text: string, i: nat) returns (q: nat)
    requires Strict(text, 0).At? && Parse(text, 0).Good? && Parse(text, 0).o.Dict?
    requires i < |Parse(text, 0).o.keys| == |Parse(text, 0).o.values|
    ensures var d := Parse(text, 0).o;
            && Stands(text, q, PrintString(d.keys[i]))
            && Stands(text, q + |PrintString(d.keys[i])|, Print(d.values[i]))
  {
    hide *;
    var d := Parse(text, 0).o;
    DictText(text, d);
    q := EntryStands(text, 1, d.keys, d.values, i);
  }

  lemma DictText(text: string, d: Obj)
    requires Strict(text, 0).At? && Parse(text, 0).Good? && d == Parse(text, 0).o && d.Dict?
    ensures Stands(text, 1, PrintPairs(d.keys, d.values))
  {
    StrictParses(text, 0);
    hide Stands, PrintPairs, Strict, Parse;
    StandsApart(text, 0, "d", PrintPairs(d.keys, d.values));
  }

  /** For one: a number with a zero in front. */
  lemma LeadingZeroIsLost()
    ensures var text := "i07e"; Parse(text, 0) == Good(Int(7), 4) && Print(Int(7)) != text
  {
    var text := "i07e";
    assert text[1..3] == "07" && "07"[..1] == "0" && "0"[..0] == "";
    assert Number("07") == 7;
    ScanFinds(text, 1, 'e', INT_ROOM, 3);
    assert Dec(7) == "7";
    assert |Print(Int(7))| == 3;
  }

  /** What is printed looks like this: for one, a dictionary of a number and of a list
      with one string. */
  lemma PrintedLooks()
    ensures Print(Dict(["a", "bc"], [Int(12), List([Str("xyz")])])) == "d1:ai12e2:bcl3:xyzee"
  {
    hide *;
    var number, list := Int(12), List([Str("xyz")]);
    StringsLook();
    ItemsLook();
    DictOnce(["a", "bc"], [number, list]);
    TwoPairs("a", number, "bc", list);
    TextLooks();
  }

  lemma TextLooks()
    ensures "d" + ("1:a" + ("i12e" + ("2:bc" + ("l3:xyze" + "e")))) == "d1:ai12e2:bcl3:xyzee"
  {
  }

  lemma TwoPairs(k: string, v: Obj, l: string, w: Obj)
    ensures PrintPairs([k, l], [v, w]) == PrintString(k) + (Print(v) + (PrintString(l) + (Print(w) + "e")))
  {
    hide Print, PrintString;
    assert [k, l][1..] == [l] && [v, w][1..] == [w] && [l][1..] == [] && [w][1..] == [];
    assert PrintPairs([], []) == "e";
    assert PrintPairs([l], [w]) == PrintString(l) + (Print(w) + "e");
  }

  lemma StringsLook()
    ensures PrintString("a") == "1:a" && PrintString("bc") == "2:bc" && PrintString("xyz") == "3:xyz"
  {
    assert Dec(1) == "1" && Dec(2) == "2" && Dec(3) == "3";
  }

  lemma ItemsLook()
    ensures Print(Int(12)) == "i12e" && Print(List([Str("xyz")])) == "l3:xyze"
  {
    StringsLook();
    assert Dec(12) == "12";
    hide PrintString;
    assert [Str("xyz")][1..] == [];
    assert PrintItems([Str("xyz")]) == "3:xyz" + "e";
  }

  lemma DictOnce(keys: seq<string>, values: seq<Obj>)
    ensures Print(Dict(keys, values)) == "d" + PrintPairs(keys, values)
  {
    hide PrintPairs;
  }
}
