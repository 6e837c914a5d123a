/** Lengths that the two checks of a header disagree about or do not allow: what
    they come to, and how that hangs on the cuts of the stream. */
module OddLengths {
  import opened StrBuf
  import opened Frames
  import opened Streams
  import opened PeerStream
  import opened PeerRuns

  /** One of the four highest lengths, one above them, or a negative one. */
  predicate Odd(y: bytes) {
    |y| >= 4 && !(0 <= Length(y) <= MAXMESSAGE - 4)
  }

  /** Some keep-alive of `a`, which stands at `at`, ends behind `last`. */
  ghost predicate Stranded(a: bytes, at: int, last: int)
    decreases |a|
  {
    Whole(a) && ((Payload(a) == [] && at + 4 > last) || Stranded(After(a), at + 4 + Length(a), last))
  }

  /** No lull while the header at `at` is read. */
  ghost predicate Quiet(lulls: seq<Lull>, at: int) {
    forall i :: 0 <= i < |lulls| ==> !(at <= lulls[i].place < at + 4)
  }

  /** What an odd header comes to, looked at from behind a message or anew. */
  ghost predicate OddEnds(y: bytes, behind: bool, r: (seq<bytes>, Ending))
    requires Odd(y)
  {
    var len := Length(y);
    if behind then r == ([], if -4 <= len < 0 then Dies else Closes)
    else if len < 0 then r == ([], Dies)
    else if len > MAXMESSAGE then r == ([], Closes)
    else if !Whole(y) then r == ([], Lasts)
    else r.0 != [] && r.0[0] == Payload(y)
  }

  lemma {:induction false} OddCourse(y: bytes, at: int, behind: bool, heard: bool, lulls: seq<Lull>, last: int,
                                     handler: Handler)
    requires Odd(y) && Soft(lulls) && InOrder(lulls, at)
    ensures OddEnds(y, behind && Quiet(lulls, at), Foretold(y, at, behind, heard, lulls, last, handler))
    decreases |lulls|
  {
    if lulls != [] && lulls[0].place < at + 4 {
      OddCourse(y, at, false, true, lulls[1..], last, handler);
    } else if lulls != [] && 0 <= Length(y) <= MAXMESSAGE && lulls[0].place < at + 4 + Length(y) && !behind {
      OddCourse(y, at, false, true, lulls[1..], last, handler);
    } else {
      RefusedThoughFineIff(y);
      PassedThoughBadIff(y);
    }
    hide Length, Ahead;
  }

  /** The lulls from `at` on. */
  ghost function From(lulls: seq<Lull>, at: int): (r: seq<Lull>)
    ensures |r| <= |lulls|
  {
    if lulls == [] || lulls[0].place >= at then lulls else From(lulls[1..], at)
  }

  lemma {:induction false} FromIs(lulls: seq<Lull>, from: int, at: int)
    requires InOrder(lulls, from) && Soft(lulls) && from <= at
    ensures InOrder(From(lulls, at), at) && Soft(From(lulls, at)) && (Quiet(From(lulls, at), at) <==> Quiet(lulls, at))
  {
    if lulls != [] && lulls[0].place < at {
      FromIs(lulls[1..], from, at);
      assert forall i :: 0 <= i < |lulls[1..]| ==> lulls[1..][i] == lulls[i + 1];
    }
  }

  lemma FromOnce(lulls: seq<Lull>, at: int, e: int, to: int)
    requires InOrder(lulls, at) && Soft(lulls) && at <= e <= to
    ensures if lulls != [] && lulls[0].place < e
            then InOrder(lulls[1..], at) && Soft(lulls[1..]) && From(lulls, to) == From(lulls[1..], to)
            else InOrder(lulls, e)
  {
  }

  function Joined(ms: seq<bytes>, r: (seq<bytes>, Ending)): (seq<bytes>, Ending) {
    (ms + r.0, r.1)
  }

  /** With a handler that reports no error it is of no account what was heard. */
  lemma {:induction false} HeardCourse(x: bytes, at: int, behind: bool, h1: bool, h2: bool, lulls: seq<Lull>, last: int,
                                       handler: Handler)
    requires NoErrors(handler)
    ensures Foretold(x, at, behind, h1, lulls, last, handler) == Foretold(x, at, behind, h2, lulls, last, handler)
    decreases |x|
  {
    if Whole(x) {
      HeardCourse(After(x), at + 4 + Length(x), Payload(x) != [], h1, h2, lulls, last, handler);
    }
    hide Length, RefusedAhead;
  }

  /** Was the last message of `a` one with a body? */
  predicate Busy(a: bytes) {
    var ms := Messages(a);
    ms != [] && ms[|ms| - 1] != []
  }

  /** Messages with ordinary lengths are taken, and what stands at `to` behind them
      goes on from there. */
  lemma {:induction false} FrontCourse(a: bytes, y: bytes, at: int, to: int, behind: bool, busy: bool, heard: bool,
                                       lulls: seq<Lull>, last: int, handler: Handler)
    requires Left(a) == [] && Sound(a) && NoErrors(handler) && Soft(lulls) && InOrder(lulls, at)
    requires !Stranded(a, at, last) && to == at + |a| && busy == if a == [] then behind else Busy(a)
    ensures Foretold(a + y, at, behind, heard, lulls, last, handler)
         == Joined(Messages(a), Foretold(y, to, busy, heard, From(lulls, to), last, handler))
    decreases |a| + |lulls|
  {
    hide *;
    if a == [] {
      NothingFirst(lulls, at, Foretold(y, at, behind, heard, lulls, last, handler));
      assert a + y == y;
    } else {
      FrontStep(a, y);
      FrontTaken(a, y, at, behind, heard, lulls, last, handler);
      StrandedOnce(a, at, last);
      FromOnce(lulls, at, at + 4 + Length(a), to);
      var m, e := Payload(a), at + 4 + Length(a);
      if lulls != [] && lulls[0].place < e {
        HeardCourse(a + y, at, false, true, heard, lulls[1..], last, handler);
        FrontCourse(a, y, at, to, false, busy, heard, lulls[1..], last, handler);
      } else {
        FrontCourse(After(a), y, e, to, m != [], busy, heard, lulls, last, handler);
        JoinedBehind(m, Messages(After(a)), Foretold(y, to, busy, heard, From(lulls, to), last, handler));
      }
    }
  }

  lemma NothingFirst(lulls: seq<Lull>, at: int, r: (seq<bytes>, Ending))
    requires InOrder(lulls, at)
    ensures Joined(Messages([]), r) == r && From(lulls, at) == lulls
  {
    assert [] + r.0 == r.0;
  }

  lemma FrontTaken(a: bytes, y: bytes, at: int, behind: bool, heard: bool, lulls: seq<Lull>, last: int, handler: Handler)
    requires a != [] && Left(a) == [] && Sound(a) && NoErrors(handler) && Soft(lulls)
    ensures Whole(a)
    ensures var m, e := Payload(a), at + 4 + Length(a);
            Foretold(a + y, at, behind, heard, lulls, last, handler)
            == if lulls != [] && lulls[0].place < e then Foretold(a + y, at, false, true, lulls[1..], last, handler)
               else if m == [] && at + 4 > last then ([[]], Lasts)
               else Before(m, Foretold(After(a) + y, e, m != [], heard, lulls, last, handler))
  {
    hide *;
    FrontStep(a, y);
    LullFirstIs(a + y, at, lulls);
    SoundOnce(a + y, at, behind, heard, lulls, last, handler);
  }

  lemma StrandedOnce(a: bytes, at: int, last: int)
    requires Whole(a)
    ensures Stranded(a, at, last) <==> (Payload(a) == [] && at + 4 > last) || Stranded(After(a), at + 4 + Length(a), last)
  {
  }

  lemma LullFirstIs(x: bytes, at: int, lulls: seq<Lull>)
    requires |x| >= 4
    ensures LullFirst(x, at, lulls) <==> lulls != [] && lulls[0].place < at + 4 + Length(x)
  {
  }

  lemma JoinedBehind(m: bytes, ms: seq<bytes>, r: (seq<bytes>, Ending))
    ensures Before(m, Joined(ms, r)) == Joined([m] + ms, r)
  {
    assert [m] + (ms + r.0) == [m] + ms + r.0;
  }

  lemma FrontStep(a: bytes, y: bytes)
    requires a != [] && Left(a) == [] && Sound(a)
    ensures Whole(a) && Whole(a + y) && Payload(a + y) == Payload(a) && After(a + y) == After(a) + y
    ensures Length(a + y) == Length(a) && 0 <= Length(a) <= MAXMESSAGE - 4 && |After(a)| == |a| - 4 - Length(a)
    ensures Left(After(a)) == [] && Sound(After(a)) && Messages(a) == [Payload(a)] + Messages(After(a))
    ensures Busy(a) == if After(a) == [] then Payload(a) != [] else Busy(After(a))
  {
    BusyOnce(a);
    FrontOnce(a, y);
    FrontOnce(a, []);
    assert a + [] == a;
    assert After(a) + [] == After(a);
    hide *;
  }

  lemma BusyOnce(a: bytes)
    requires a != [] && Left(a) == []
    ensures Whole(a) && Left(After(a)) == []
    ensures Busy(a) == if After(a) == [] then Payload(a) != [] else Busy(After(a))
  {
    hide Length;
    if After(a) != [] {
      assert Whole(After(a)) && Messages(After(a)) != [];
    }
  }

  /** Behind a keep-alive that comes with the last answer nothing is looked at. */
  lemma {:induction false} StrandedCourse(a: bytes, y: bytes, at: int, behind: bool, heard: bool, lulls: seq<Lull>,
                                          last: int, handler: Handler)
    requires Left(a) == [] && Sound(a) && NoErrors(handler) && Soft(lulls) && Stranded(a, at, last)
    ensures Within(Foretold(a + y, at, behind, heard, lulls, last, handler), Messages(a))
    decreases |a| + |lulls|
  {
    assert a != [];
    hide *;
    FrontStep(a, y);
    StrandedOnce(a, at, last);
    FrontTaken(a, y, at, behind, heard, lulls, last, handler);
    var m, e, rest := Payload(a), at + 4 + Length(a), Messages(After(a));
    if lulls != [] && lulls[0].place < e {
      SoftRest(lulls);
      StrandedCourse(a, y, at, false, true, lulls[1..], last, handler);
    } else if m == [] && at + 4 > last {
      WithinOne(m, rest);
    } else {
      StrandedCourse(After(a), y, e, m != [], heard, lulls, last, handler);
      WithinBefore(m, Foretold(After(a) + y, e, m != [], heard, lulls, last, handler), rest);
    }
  }

  lemma SoftRest(lulls: seq<Lull>)
    requires Soft(lulls) && lulls != []
    ensures Soft(lulls[1..])
  {
  }

  ghost predicate Within(r: (seq<bytes>, Ending), ms: seq<bytes>) {
    r.0 <= ms && r.1 == Lasts
  }

  lemma WithinOne(m: bytes, ms: seq<bytes>)
    ensures Within(([m], Lasts), [m] + ms)
  {
  }

  lemma WithinBefore(m: bytes, r: (seq<bytes>, Ending), ms: seq<bytes>)
    requires Within(r, ms)
    ensures Within(Before(m, r), [m] + ms)
  {
  }

  // ----------------------------------------------------------------- main theorems

  /** Every stream that is not sound has an odd header behind ordinary messages. */
  lemma {:induction false} Divide(x: bytes) returns (a: bytes, y: bytes)
    requires !Sound(x)
    ensures x == a + y && Left(a) == [] && Sound(a) && Odd(y)
    decreases |x|
  {
    if !(0 <= Length(x) <= MAXMESSAGE - 4) {
      return [], x;
    }
    var b;
    b, y := Divide(After(x));
    a := x[..4 + Length(x)] + b;
    assert x == x[..4 + Length(x)] + After(x);
    assert x == a + y;
    SameLength(x, x);
    FirstPart(x[..4 + Length(x)], b, x);
  }

  lemma FirstPart(m: bytes, b: bytes, x: bytes)
    requires |x| >= 4 && 0 <= Length(x) <= MAXMESSAGE - 4 && 4 + Length(x) <= |x| && m == x[..4 + Length(x)]
    requires Left(b) == [] && Sound(b)
    ensures Left(m + b) == [] && Sound(m + b)
  {
    SameLength(m, x);
    SameLength(m, m + b);
    hide Length;
    assert Whole(m + b) && After(m + b) == b;
  }

  lemma OddForetold(a: bytes, y: bytes, lulls: seq<Lull>, last: int, handler: Handler) returns (r: (seq<bytes>, Ending))
    requires Left(a) == [] && Sound(a) && Odd(y) && NoErrors(handler) && Soft(lulls) && InOrder(lulls, 0)
    requires !Stranded(a, 0, last)
    ensures Foretold(a + y, 0, false, false, lulls, last, handler) == Joined(Messages(a), r)
    ensures OddEnds(y, Busy(a) && Quiet(lulls, |a|), r)
  {
    assert a == [] ==> !Busy(a);
    hide *;
    FrontCourse(a, y, 0, |a|, false, Busy(a), false, lulls, last, handler);
    FromIs(lulls, 0, |a|);
    OddCourse(y, |a|, Busy(a), false, From(lulls, |a|), last, handler);
    r := Foretold(y, |a|, Busy(a), false, From(lulls, |a|), last, handler);
  }

  /** What becomes of the first odd header of a stream: it is fatal, refused, or
      taken, by its length and by whether it is looked at from behind a message.
      It is so when the message before it has a body and the socket has an answer
      all the while the header is read.  Two cuts of one stream can differ in it. */
  lemma OddHeaderIff(answers: seq<Recv>, a: bytes, y: bytes, handler: Handler)
    requires Bytes(answers) == a + y && Left(a) == [] && Sound(a) && Odd(y)
    requires Flowing(answers) && NoErrors(handler) && !Stranded(a, 0, LastAt(answers, 0))
    ensures var (ms, _, end) := Driven(Start(answers), handler);
            var behind := Busy(a) && Quiet(Lulls(answers, 0, 0), |a|);
            var len := Length(y);
            && Messages(a) <= ms
            && (ms == Messages(a) && end == Dies <==> len < 0 && (!behind || -4 <= len))
            && (ms == Messages(a) && end == Closes <==> if behind then !(-4 <= len < 0) else len > MAXMESSAGE)
            && (ms != Messages(a) <==> !behind && Whole(y))
            && (ms != Messages(a) ==> Messages(a) + [Payload(y)] <= ms)
  {
    var lulls := Lulls(answers, 0, 0);
    assert Soft(lulls);
    hide *;
    LullsInOrder(answers, 0, 0);
    var r := OddForetold(a, y, lulls, LastAt(answers, 0), handler);
    DrivenIsForetold(answers, handler);
    OddReads(Messages(a), y, Busy(a) && Quiet(lulls, |a|), r);
  }

  lemma OddReads(front: seq<bytes>, y: bytes, behind: bool, r: (seq<bytes>, Ending))
    requires Odd(y) && OddEnds(y, behind, r)
    ensures var (ms, end) := Joined(front, r);
            var len := Length(y);
            && front <= ms
            && (ms == front && end == Dies <==> len < 0 && (!behind || -4 <= len))
            && (ms == front && end == Closes <==> if behind then !(-4 <= len < 0) else len > MAXMESSAGE)
            && (ms != front <==> !behind && Whole(y))
            && (ms != front ==> front + [Payload(y)] <= ms)
  {
    hide Length;
    assert front + r.0 == front <==> r.0 == [];
    assert r.0 != [] ==> r.0 == [r.0[0]] + r.0[1..] && front + r.0 == front + [r.0[0]] + r.0[1..];
  }

  /** Unless a keep-alive comes before it with the last answer: then it waits. */
  lemma OddHeaderWaits(answers: seq<Recv>, a: bytes, y: bytes, handler: Handler)
    requires Bytes(answers) == a + y && Left(a) == [] && Sound(a)
    requires Flowing(answers) && NoErrors(handler) && Stranded(a, 0, LastAt(answers, 0))
    ensures var (ms, _, end) := Driven(Start(answers), handler); ms <= Messages(a) && end == Lasts
  {
    DrivenIsForetold(answers, handler);
    StrandedCourse(a, y, 0, false, false, Lulls(answers, 0, 0), LastAt(answers, 0), handler);
    hide Driven, Foretold, Messages, Lulls, LastAt;
  }

  /** In particular a stream that begins with a negative length ends the program. */
  lemma NegativeKills(answers: seq<Recv>, handler: Handler)
    requires Flowing(answers) && NoErrors(handler)
    requires |Bytes(answers)| >= 4 && Length(Bytes(answers)) < 0
    ensures Driven(Start(answers), handler).0 == [] && Driven(Start(answers), handler).2 == Dies
  {
    hide Flowing, NoErrors, Length, Driven, Lulls, LastAt, Bytes;
    assert [] + Bytes(answers) == Bytes(answers);
    OddHeaderIff(answers, [], Bytes(answers), handler);
  }

  // ---------------------------------------------------------------- one stream, two cuts

  /** A message of one byte. */
  function OneByte(x: byte): bytes {
    Header(1) + [x]
  }

  lemma OneByteIs(x: byte, last: int)
    ensures var a := OneByte(x);
            |a| == 5 && Left(a) == [] && Sound(a) && Messages(a) == [[x]] && Busy(a) && !Stranded(a, 0, last)
  {
    var a := OneByte(x);
    SentOne([x]);
    LengthOfHeader(1, [x]);
    hide Length, Header;
    assert Whole(a) && Payload(a) == [x] && After(a) == [];
  }

  /** Two pieces and more, the second at once or after a missing answer. */
  function Together(a: bytes, y: bytes, more: seq<Recv>): seq<Recv> {
    [Data(a)] + ([Data(y)] + more)
  }

  function Paused(a: bytes, y: bytes, more: seq<Recv>): seq<Recv> {
    [Data(a)] + ([WouldBlock] + ([Data(y)] + more))
  }

  lemma TwoPieces(a: bytes, y: bytes, more: seq<Recv>)
    requires a != [] && y != []
    ensures var one, two := Together(a, y, more), Paused(a, y, more);
            && Bytes(one) == Bytes(two) == a + (y + Bytes(more))
            && Lulls(one, 0, 0) == Lulls(more, |a| + |y|, 0)
            && Lulls(two, 0, 0) == [Lull(|a|, false)] + Lulls(more, |a| + |y|, 0)
  {
    hide *;
    var rest := [Data(y)] + more;
    NextPiece(y, more, |a|, 0);
    NextPiece(y, more, |a|, 1);
    NextPiece(a, rest, 0, 0);
    NextBlank(rest, |a|);
    NextPiece(a, [WouldBlock] + rest, 0, 0);
    PiecesAre(a, y, more);
  }

  lemma PiecesAre(a: bytes, y: bytes, more: seq<Recv>)
    ensures Together(a, y, more) == [Data(a)] + ([Data(y)] + more)
    ensures Paused(a, y, more) == [Data(a)] + ([WouldBlock] + ([Data(y)] + more))
  {
  }

  lemma NextPiece(b: bytes, more: seq<Recv>, at: int, n: nat)
    requires b != []
    ensures Bytes([Data(b)] + more) == b + Bytes(more)
    ensures Lulls([Data(b)] + more, at, n) == Lulls(more, at + |b|, 0)
  {
    FirstPiece(Data(b), more, at, n);
    hide Lulls, Bytes;
  }

  lemma NextBlank(more: seq<Recv>, at: int)
    ensures Bytes([WouldBlock] + more) == Bytes(more)
    ensures Lulls([WouldBlock] + more, at, 0) == [Lull(at, false)] + Lulls(more, at, 1)
  {
    FirstPiece(WouldBlock, more, at, 0);
    hide Lulls, Bytes;
    assert [] + Bytes(more) == Bytes(more);
  }

  lemma FirstPiece(r: Recv, more: seq<Recv>, at: int, n: nat)
    ensures Bytes([r] + more) == Piece(r) + Bytes(more)
    ensures Lulls([r] + more, at, n) == if Brings(r) then Lulls(more, at + |r.b|, 0)
                                        else if r.Failed? then [Lull(at, true)] + Lulls(more, at, n)
                                        else [Lull(at, n >= MAX_EMPTY)] + Lulls(more, at, n + 1)
  {
    assert ([r] + more)[1..] == more;
  }

  /** With a header behind a message of one byte, a missing answer between the two
      decides whether it is looked at from behind that message. */
  lemma PauseDecides(x: byte, y: bytes, more: seq<Recv>, handler: Handler)
    requires |y| == 4 && Odd(y + Bytes(more)) && Soft(Lulls(more, 9, 0)) && NoErrors(handler)
    ensures var one, two := Together(OneByte(x), y, more), Paused(OneByte(x), y, more);
            var h := y + Bytes(more);
            var (ms, _, end) := Driven(Start(one), handler);
            var (ms', _, end') := Driven(Start(two), handler);
            && ms == [[x]] && end == (if -4 <= Length(h) < 0 then Dies else Closes)
            && [[x]] <= ms'
            && (Length(h) < 0 ==> ms' == [[x]] && end' == Dies)
            && (Whole(h) ==> [[x], Payload(h)] <= ms')
  {
    var a, h := OneByte(x), y + Bytes(more);
    var one, two := Together(a, y, more), Paused(a, y, more);
    hide *;
    OneByteIs(x, LastAt(one, 0));
    OneByteIs(x, LastAt(two, 0));
    PauseLulls(a, y, more);
    OddHeaderIff(one, a, h, handler);
    OddHeaderIff(two, a, h, handler);
    OddIs(h);
    assert Whole(h) ==> [[x]] + [Payload(h)] == [[x], Payload(h)];
  }

  lemma OddIs(h: bytes)
    requires Odd(h)
    ensures |h| >= 4 && (0 <= Length(h) ==> Length(h) > MAXMESSAGE - 4) && (Whole(h) ==> Length(h) >= 0)
  {
    hide Length;
  }

  lemma PauseLulls(a: bytes, y: bytes, more: seq<Recv>)
    requires |a| == 5 && |y| == 4 && Soft(Lulls(more, 9, 0))
    ensures var one, two := Together(a, y, more), Paused(a, y, more);
            && Bytes(one) == Bytes(two) == a + (y + Bytes(more)) && Flowing(one) && Flowing(two)
            && Quiet(Lulls(one, 0, 0), 5) && !Quiet(Lulls(two, 0, 0), 5)
  {
    TwoPieces(a, y, more);
    LullsInOrder(more, 9, 0);
    hide Lulls, Bytes;
    assert Lulls(Paused(a, y, more), 0, 0)[0].place == 5;
  }

  /** The length -5: refused in one piece, fatal after a pause. */
  lemma MinusFiveHangsOnPause(x: byte, handler: Handler)
    requires NoErrors(handler)
    ensures var (ms, _, end) := Driven(Start([Data(OneByte(x)), Data([255, 255, 255, 251])]), handler);
            ms == [[x]] && end == Closes
    ensures var (ms, _, end) := Driven(Start([Data(OneByte(x)), WouldBlock, Data([255, 255, 255, 251])]), handler);
            ms == [[x]] && end == Dies
  {
    var y: bytes := [255, 255, 255, 251];
    assert Length(y) == -5;
    assert y + Bytes([]) == y;
    hide Driven, Length;
    PauseDecides(x, y, [], handler);
    assert Together(OneByte(x), y, []) == [Data(OneByte(x)), Data(y)];
    assert Paused(OneByte(x), y, []) == [Data(OneByte(x)), WouldBlock, Data(y)];
  }

  /** The longest message: refused in one piece, taken after a pause. */
  lemma LongestHangsOnPause(x: byte, m: bytes, more: seq<Recv>, handler: Handler)
    requires |m| == MAXMESSAGE && Bytes(more) == m && Soft(Lulls(more, 9, 0)) && NoErrors(handler)
    ensures var (ms, _, end) := Driven(Start(Together(OneByte(x), Header(|m|), more)), handler);
            ms == [[x]] && end == Closes
    ensures Driven(Start(Paused(OneByte(x), Header(|m|), more)), handler).0 == [[x], m]
  {
    var y := Header(|m|);
    var two := Paused(OneByte(x), y, more);
    LongestIs(x, m);
    TwoPieces(OneByte(x), y, more);
    DrivenTakesFirst(Start(two), handler);
    assert Offered(Start(two)) == Bytes(two);
    hide *;
    PauseDecides(x, y, more, handler);
  }

  lemma LongestIs(x: byte, m: bytes)
    requires |m| == MAXMESSAGE
    ensures var h := Header(|m|) + m;
            Odd(h) && Whole(h) && Payload(h) == m && Length(h) >= 0 && Messages(OneByte(x) + h) == [[x], m]
  {
    var h := Header(|m|) + m;
    LengthOfHeader(|m|, m);
    SentOne(m);
    OneByteIs(x, 0);
    hide Length, Header, OneByte;
    MessagesJoin(OneByte(x), h);
    assert [[x]] + [m] == [[x], m];
  }

  /** A message of an unknown kind closes the connection, unless an answer has been
      missing before. */
  lemma UnknownHangsOnPause(x: byte, handler: Handler)
    requires handler(5, [x]) == Unknown
    ensures Driven(Start([Data(OneByte(x))]), handler).2 == Closes
    ensures Driven(Start([WouldBlock, Data(OneByte(x))]), handler).2 == Lasts
  {
    var a := OneByte(x);
    var one, two := [Data(a)], [WouldBlock, Data(a)];
    UnknownCourse(x, false, [], LastAt(one, 0), handler);
    UnknownCourse(x, true, [], LastAt(two, 0), handler);
    UnknownCourse(x, false, [Lull(0, false)], LastAt(two, 0), handler);
    NextPiece(a, [], 0, 0);
    NextPiece(a, [], 0, 1);
    NextBlank(one, 0);
    assert one == [Data(a)] + [] && two == [WouldBlock] + one;
    assert Lulls(one, 0, 0) == [] && Lulls(two, 0, 0) == [Lull(0, false)];
    assert a + [] == a && [] + a == a;
    assert Bytes(one) == Bytes(two) == a;
    hide *;
    DrivenIsForetold(one, handler);
    DrivenIsForetold(two, handler);
  }

  lemma UnknownCourse(x: byte, heard: bool, lulls: seq<Lull>, last: int, handler: Handler)
    requires handler(5, [x]) == Unknown && (lulls == [] || lulls == [Lull(0, false)])
    ensures Foretold(OneByte(x), 0, false, heard, lulls, last, handler).1
         == if heard || lulls != [] then Lasts else Closes
    decreases |lulls|
  {
    var a := OneByte(x);
    LengthOfHeader(1, [x]);
    assert Whole(a) && Payload(a) == [x] && After(a) == [];
    hide Length, OneByte, Header;
    if lulls != [] {
      assert lulls[1..] == [];
      UnknownCourse(x, true, [], last, handler);
    }
  }
}
