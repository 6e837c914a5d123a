/** How a stream of bytes divides into messages, each behind its length. */
module Frames {
  import opened StrBuf

  const MAXREQUEST := 64 * 1024
  const MAXMESSAGE := MAXREQUEST + 100
  const TWO32 := 0x1_0000_0000

  type bytes = seq<byte>

  function Signed(u: nat): (i: int)
    ensures u < TWO32 ==> -TWO32 / 2 <= i < TWO32 / 2 && (i - u) % TWO32 == 0
  {
    if u % TWO32 < TWO32 / 2 then u % TWO32 else u % TWO32 - TWO32
  }

  function Unsigned(h: bytes): (u: nat)
    requires |h| >= 4
    ensures u < TWO32
  {
    (h[0] as int) * 0x100_0000 + (h[1] as int) * 0x1_0000 + (h[2] as int) * 0x100 + h[3] as int
  }

  /** `ntohl` of the first four bytes, as an `int`. */
  function Length(h: bytes): int
    requires |h| >= 4
  {
    Signed(Unsigned(h))
  }

  /** `htonl`. */
  function Header(len: nat): (h: bytes)
    requires len < TWO32
    ensures |h| == 4
  {
    [len / 0x100_0000, len / 0x1_0000 % 256, len / 256 % 256, len % 256]
  }

  lemma DigitsBack(n: nat)
    requires n < TWO32
    ensures n / 0x100_0000 * 0x100_0000 + n / 0x1_0000 % 256 * 0x1_0000 + n / 256 % 256 * 256 + n % 256 == n
  {
    assert n / 256 / 256 == n / 0x1_0000 && n / 0x1_0000 / 256 == n / 0x100_0000;
  }

  lemma SignedSmall(n: nat)
    requires n < TWO32 / 2
    ensures Signed(n) == n
  {
  }

  lemma LengthOfHeader(len: nat, rest: bytes)
    requires len < TWO32 / 2
    ensures Length(Header(len) + rest) == len
  {
    hide Signed;
    var h := Header(len) + rest;
    DigitsBack(len);
    assert h[0] == len / 0x100_0000 && h[1] == len / 0x1_0000 % 256 && h[2] == len / 256 % 256 && h[3] == len % 256;
    assert Signed(len) == len by { SignedSmall(len); }
  }

  /** A message stands whole at the front. */
  predicate Whole(s: bytes) {
    |s| >= 4 && 0 <= Length(s) <= MAXMESSAGE && 4 + Length(s) <= |s|
  }

  function Payload(s: bytes): bytes
    requires Whole(s)
  {
    s[4..4 + Length(s)]
  }

  function After(s: bytes): bytes
    requires Whole(s)
  {
    s[4 + Length(s)..]
  }

  /** The messages of a stream, up to where the next one is not whole. */
  function Messages(s: bytes): seq<bytes>
    decreases |s|
  {
    if Whole(s) then [Payload(s)] + Messages(After(s)) else []
  }

  /** What is left behind them. */
  function Left(s: bytes): bytes
    decreases |s|
  {
    if Whole(s) then Left(After(s)) else s
  }

  lemma WholeStays(a: bytes, b: bytes)
    requires Whole(a)
    ensures Whole(a + b) && Payload(a + b) == Payload(a) && After(a + b) == After(a) + b
  {
    assert Unsigned(a + b) == Unsigned(a);
  }

  /** A stream that ends with a message divides the same whatever follows. */
  lemma {:induction false} MessagesJoin(a: bytes, b: bytes)
    requires Left(a) == []
    ensures Messages(a + b) == Messages(a) + Messages(b) && Left(a + b) == Left(b)
    decreases |a|
  {
    if Whole(a) {
      WholeStays(a, b);
      MessagesJoin(After(a), b);
    } else {
      assert a + b == b;
    }
  }

  lemma OneMessage(s: bytes)
    requires Whole(s) && After(s) == []
    ensures Messages(s) == [Payload(s)] && Left(s) == []
  {
  }

  /** What comes later can only add messages. */
  lemma {:induction false} MessagesGrow(a: bytes, b: bytes)
    ensures Messages(a) <= Messages(a + b)
    decreases |a|
  {
    if Whole(a) {
      WholeStays(a, b);
      MessagesGrow(After(a), b);
    }
  }

  /** `send_message`, for a run of messages. */
  function Sent(ms: seq<bytes>): bytes
    requires forall i :: 0 <= i < |ms| ==> |ms[i]| <= MAXMESSAGE
  {
    if ms == [] then [] else Sent(ms[..|ms| - 1]) + (Header(|ms[|ms| - 1]|) + ms[|ms| - 1])
  }

  lemma SentOne(m: bytes)
    requires |m| <= MAXMESSAGE
    ensures Messages(Header(|m|) + m) == [m] && Left(Header(|m|) + m) == []
  {
    LengthOfHeader(|m|, m);
    FramedOne(Header(|m|), m);
  }

  lemma FramedOne(h: bytes, m: bytes)
    requires |h| == 4 && |m| <= MAXMESSAGE && Length(h + m) == |m|
    ensures Messages(h + m) == [m] && Left(h + m) == []
  {
    hide Length;
    var s := h + m;
    assert Whole(s) && Payload(s) == m && After(s) == [];
    OneMessage(s);
  }

  /** The messages one side sends are those the other side finds. */
  lemma {:induction false} SentIsReceived(ms: seq<bytes>)
    requires forall i :: 0 <= i < |ms| ==> |ms[i]| <= MAXMESSAGE
    ensures Messages(Sent(ms)) == ms && Left(Sent(ms)) == []
  {
    if ms != [] {
      var front, last := ms[..|ms| - 1], ms[|ms| - 1];
      SentIsReceived(front);
      SentOne(last);
      MessagesJoin(Sent(front), Header(|last|) + last);
      assert ms == front + [last];
    }
  }

  // --------------------------------------------------------- the two length checks

  /** `tlen` of the look at the next header: 32 bits, signed, of a 64-bit sum. */
  function Ahead(h: bytes): int
    requires |h| >= 4
  {
    Signed(Unsigned(h) + 4)
  }

  predicate RefusedAhead(h: bytes)
    requires |h| >= 4
  {
    Ahead(h) < 0 || Ahead(h) > MAXMESSAGE
  }

  predicate TakenWhenFirst(h: bytes)
    requires |h| >= 4
  {
    0 <= Length(h) <= MAXMESSAGE
  }

  /** A header is refused when looked at from behind another message, but allowed
      as the first, just when its length is one of the four highest. */
  lemma RefusedThoughFineIff(h: bytes)
    requires |h| >= 4
    ensures RefusedAhead(h) && TakenWhenFirst(h) <==> MAXMESSAGE - 4 < Length(h) <= MAXMESSAGE
  {
  }

  /** The look ahead lets pass what will not be taken just for the lengths -4 to -1. */
  lemma PassedThoughBadIff(h: bytes)
    requires |h| >= 4
    ensures !RefusedAhead(h) && !TakenWhenFirst(h) <==> -4 <= Length(h) < 0
  {
  }

  /** No header, whole message or not, is one the two checks differ about or refuse. */
  predicate Sound(s: bytes)
    decreases |s|
  {
    |s| >= 4 ==> 0 <= Length(s) <= MAXMESSAGE - 4 && (Whole(s) ==> Sound(After(s)))
  }
}
