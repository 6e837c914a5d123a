/** Whole runs of a client, told beforehand from the bytes a socket brings and
    from where in the stream it has nothing to give. */
module PeerRuns {
  import opened StrBuf
  import opened Frames
  import opened Streams
  import opened PeerStream

  // ------------------------------------------------------- what the socket answers

  predicate Brings(a: Recv) {
    a.Data? && a.b != []
  }

  function Piece(a: Recv): bytes {
    if a.Data? then a.b else []
  }

  /** An answer without bytes: where in the stream it comes, and whether it is more
      than a missing one, a failure or the eleventh empty answer in a row. */
  datatype Lull = Lull(place: int, hard: bool)

  /** The answers without bytes, `at` bytes and then `empties` empty answers having
      come. */
  ghost function Lulls(answers: seq<Recv>, at: int, empties: nat): (lulls: seq<Lull>) {
    if answers == [] then []
    else if Brings(answers[0]) then Lulls(answers[1..], at + |answers[0].b|, 0)
    else if answers[0].Failed? then [Lull(at, true)] + Lulls(answers[1..], at, empties)
    else [Lull(at, empties >= MAX_EMPTY)] + Lulls(answers[1..], at, empties + 1)
  }

  /** The place at which the last answer comes. */
  ghost function LastAt(answers: seq<Recv>, at: int): int {
    if |answers| <= 1 then at else LastAt(answers[1..], at + |Piece(answers[0])|)
  }

  ghost predicate InOrder(lulls: seq<Lull>, at: int) {
    && (forall i :: 0 <= i < |lulls| ==> lulls[i].place >= at)
    && (forall i, j :: 0 <= i < j < |lulls| ==> lulls[i].place <= lulls[j].place)
  }

  lemma {:induction false} LullsInOrder(answers: seq<Recv>, at: int, empties: nat)
    ensures InOrder(Lulls(answers, at, empties), at) && LastAt(answers, at) >= at
  {
    if answers != [] {
      if Brings(answers[0]) {
        LullsInOrder(answers[1..], at + |answers[0].b|, 0);
      } else {
        LullsInOrder(answers[1..], at, if answers[0].Failed? then empties else empties + 1);
      }
    }
  }

  // ----------------------------------------------------------- the run told beforehand

  /** How the handling of a message ends the connection; `heard` says whether
      the error last noted is a missing answer. */
  predicate Breaks(how: Handled, heard: bool) {
    match how
    case Fine => false
    case Unknown => !heard
    case Broke(e) => e != Again
  }

  function Before(m: bytes, r: (seq<bytes>, Ending)): (seq<bytes>, Ending) {
    ([m] + r.0, r.1)
  }

  /** What the bytes `x`, which stand at `at`, come to: the messages taken, and the
      ending.  A header is looked at from behind the message before it, if that had
      a body and was handled well, unless there is a lull while it is read; any
      other lull counts when it is a hard one.  A run ends with a keep-alive, or a
      message not handled well, and none follows once the last answer has come. */
  ghost function Foretold(x: bytes, at: int, behind: bool, heard: bool, lulls: seq<Lull>, last: int, handler: Handler)
    : (r: (seq<bytes>, Ending))
    decreases |x| + |lulls|
  {
    if lulls != [] && lulls[0].place < at + 4 then
      if !behind && lulls[0].hard then ([], Closes)
      else Foretold(x, at, false, !lulls[0].hard, lulls[1..], last, handler)
    else if |x| < 4 then ([], Lasts)
    else if behind && RefusedAhead(x) then ([], Closes)
    else if Length(x) < 0 then ([], Dies)
    else if Length(x) > MAXMESSAGE then ([], Closes)
    else if lulls != [] && lulls[0].place < at + 4 + Length(x) then
      if lulls[0].hard then ([], Closes)
      else Foretold(x, at, false, true, lulls[1..], last, handler)
    else if !Whole(x) then ([], Lasts)
    else
      var m, e := Payload(x), at + 4 + Length(x);
      var how := if m == [] then Fine else handler(e, m);
      if Breaks(how, heard) then ([m], Closes)
      else if (m == [] || !how.Fine?) && e > last then ([m], Lasts)
      else Before(m, Foretold(After(x), e, m != [] && how.Fine?, heard || !how.Fine?, lulls, last, handler))
  }

  /** Where the last answer comes is of no account once it is there. */
  lemma {:induction false} SameCourse(x: bytes, at: int, behind: bool, heard: bool, lulls: seq<Lull>,
                                      l1: int, l2: int, handler: Handler)
    requires Whole(x) ==> l1 < at + 4 + Length(x) && l2 < at + 4 + Length(x)
    ensures Foretold(x, at, behind, heard, lulls, l1, handler) == Foretold(x, at, behind, heard, lulls, l2, handler)
    decreases |x| + |lulls|
  {
    if lulls != [] && (lulls[0].place < at + 4 || (Whole(x) && lulls[0].place < at + 4 + Length(x))) {
      SameCourse(x, at, false, !lulls[0].hard, lulls[1..], l1, l2, handler);
    } else if lulls != [] && |x| >= 4 && 0 <= Length(x) <= MAXMESSAGE && lulls[0].place < at + 4 + Length(x) {
      SameCourse(x, at, false, true, lulls[1..], l1, l2, handler);
    } else if Whole(x) {
      var m, e := Payload(x), at + 4 + Length(x);
      var how := if m == [] then Fine else handler(e, m);
      SameCourse(After(x), e, m != [] && how.Fine?, heard || !how.Fine?, lulls, l1, l2, handler);
    }
  }

  // ------------------------------------------------------------- from a state of the buffer

  ghost function Last(s: In): int {
    if s.answers == [] then Place(s) else LastAt(s.answers, s.readCount)
  }

  ghost function Course(s: In, behind: bool, handler: Handler): (seq<bytes>, Ending) {
    Foretold(Offered(s), Place(s), behind, s.error == Again,
             Lulls(s.answers, s.readCount, s.errorCount), Last(s), handler)
  }

  /** Answers that have run out did not do so with empty ones. */
  predicate Calm(s: In) {
    s.answers == [] ==> s.errorCount < MAX_EMPTY
  }

  /** A run of the client, and the runs after it. */
  function RunOn(s: In, handler: Handler): (seq<bytes>, Ending) {
    var (ms, last, r) := Client(s, handler);
    Onward(ms, last, r, handler)
  }

  function Onward(ms: seq<bytes>, last: Got, r: In, handler: Handler): (seq<bytes>, Ending) {
    if EndOf(last, r) != Lasts then (ms, EndOf(last, r))
    else
      var (more, _, end) := Driven(r, handler);
      (ms + more, end)
  }

  /** The same from the look at the next header on. */
  function RunBehind(s: In, m: bytes, handler: Handler): (seq<bytes>, Ending) {
    var (got, r) := LookedAhead(s, m);
    if got.Message? && got.more then RunOn(r, handler) else Onward([], got, r, handler)
  }

  lemma RunOnOnce(s: In, handler: Handler)
    ensures var (got, r) := Recvd(s, handler);
            RunOn(s, handler) == if got.Message? && got.more then Before(got.m, RunOn(r, handler))
                                 else Onward(Taken(got), got, r, handler)
  {
    hide Recvd, Driven;
    var (got, r) := Recvd(s, handler);
    if got.Message? && got.more {
      var (ms, last, t) := Client(r, handler);
      var more := Driven(t, handler).0;
      assert [got.m] + ms + more == [got.m] + (ms + more);
    }
  }

  lemma DrivenOnce(s: In, handler: Handler)
    ensures var (ms, _, end) := Driven(s, handler);
            (ms, end) == if s.answers == [] then ([], Lasts) else RunOn(s, handler)
  {
    hide Client;
  }

  // -------------------------------------------------------------------- one answer more

  function Fed(s: In): In
    requires s.answers != [] && Brings(s.answers[0])
  {
    var b := s.answers[0].b;
    s.(buf := s.buf + b, answers := s.answers[1..], errorCount := 0, readCount := s.readCount + |b|)
  }

  function Lulled(s: In): In
    requires s.answers != []
  {
    Failing(s.(answers := s.answers[1..]), if s.answers[0].Failed? then Other(s.answers[0].code) else Again)
  }

  lemma FedIs(s: In, size: nat)
    requires s.answers != [] && Brings(s.answers[0])
    ensures Offered(Fed(s)) == Offered(s) && Place(Fed(s)) == Place(s)
    ensures |s.buf| < size ==> Peeked(s, size) == Peeked(Fed(s), size)
  {
    var b := s.answers[0].b;
    assert s.buf + (b + Bytes(s.answers[1..])) == s.buf + b + Bytes(s.answers[1..]);
  }

  lemma LulledIs(s: In, size: nat)
    requires s.answers != [] && !Brings(s.answers[0])
    ensures Offered(Lulled(s)) == Offered(s) && Place(Lulled(s)) == Place(s)
    ensures |s.buf| < size ==> Peeked(s, size) == (false, Lulled(s))
    ensures var lulls := Lulls(s.answers, s.readCount, s.errorCount);
            && lulls != [] && lulls[0].place == s.readCount && (lulls[0].hard <==> Lulled(s).error != Again)
            && lulls[1..] == Lulls(Lulled(s).answers, s.readCount, Lulled(s).errorCount) && Piece(s.answers[0]) == []
  {
    assert [] + Bytes(s.answers[1..]) == Bytes(s.answers[1..]);
  }

  /** The first bytes are no header, or of a message that is not whole yet. */
  predicate Short(b: bytes) {
    |b| < 4 || (0 < Length(b) <= MAXMESSAGE && |b| < 4 + Length(b))
  }

  lemma ShortReads(s: In, handler: Handler)
    requires Short(s.buf)
    ensures if s.answers == [] then Recvd(s, handler) == (Error, Failing(s, Again))
            else if Brings(s.answers[0]) then Recvd(s, handler) == Recvd(Fed(s), handler)
            else Recvd(s, handler) == (Error, Lulled(s))
  {
    hide Concluded, Bytes, Lulls;
    var size := if |s.buf| < 4 then 4 else 4 + Length(s.buf);
    if s.answers != [] && !Brings(s.answers[0]) {
      LulledIs(s, size);
    } else if s.answers != [] {
      FedIs(s, size);
      if |s.buf| >= 4 {
        SameLength(s.buf, Fed(s).buf);
      }
    }
  }

  lemma FedCourse(s: In, behind: bool, handler: Handler)
    requires s.answers != [] && Brings(s.answers[0]) && Short(s.buf)
    ensures Course(Fed(s), behind, handler) == Course(s, behind, handler)
  {
    FedIs(s, 0);
    ShortWhole(s.buf, Bytes(s.answers));
    hide Foretold, Short, Bytes;
    if |s.answers| == 1 {
      SameCourse(Offered(s), Place(s), behind, s.error == Again, Lulls(s.answers, s.readCount, s.errorCount),
                 Last(s), Last(Fed(s)), handler);
    }
  }

  lemma ShortWhole(b: bytes, more: bytes)
    requires Short(b)
    ensures Whole(b + more) ==> |b| < 4 + Length(b + more)
  {
    if |b| >= 4 {
      SameLength(b, b + more);
    }
  }

  lemma CourseIs(s: In, behind: bool, handler: Handler)
    ensures Course(s, behind, handler)
         == Foretold(Offered(s), Place(s), behind, s.error == Again, Lulls(s.answers, s.readCount, s.errorCount),
                     Last(s), handler)
    ensures if s.answers == [] then Last(s) == Place(s) else Last(s) == LastAt(s.answers, s.readCount) >= s.readCount
    ensures |s.answers| == 1 ==> Last(s) == s.readCount
  {
    LullsInOrder(s.answers, s.readCount, s.errorCount);
  }

  /** A lull is over with; a hard one ends the connection, except behind a message. */
  lemma LulledCourse(s: In, behind: bool, handler: Handler)
    requires s.answers != [] && !Brings(s.answers[0]) && Short(s.buf) && (behind ==> |s.buf| < 4)
    ensures Course(s, behind, handler)
         == if !behind && Lulled(s).error != Again then ([], Closes) else Course(Lulled(s), false, handler)
  {
    var r, x := Lulled(s), Offered(s);
    var lulls := Lulls(s.answers, s.readCount, s.errorCount);
    assert r.answers == s.answers[1..] && r.readCount == s.readCount;
    assert Place(s) == s.readCount - |s.buf|;
    ShortPlace(s);
    hide *;
    LulledIs(s, 0);
    CourseIs(s, behind, handler);
    CourseIs(r, false, handler);
    LullOnce(x, Place(s), behind, s.error == Again, lulls, Last(s), handler);
    if |s.answers| == 1 {
      SameCourse(x, Place(s), false, r.error == Again, lulls[1..], Last(s), Last(r), handler);
    } else {
      LastAtNext(s.answers, s.readCount);
    }
  }

  lemma LastAtNext(answers: seq<Recv>, at: int)
    requires answers != []
    ensures LastAt(answers, at) == if |answers| == 1 then at else LastAt(answers[1..], at + |Piece(answers[0])|)
  {
  }

  /** More is read for a header, or for the message behind it. */
  lemma ShortPlace(s: In)
    requires Short(s.buf)
    ensures var x := Offered(s);
            && (|s.buf| >= 4 ==> |x| >= 4 && 0 <= Length(x) <= MAXMESSAGE && |s.buf| < 4 + Length(x))
            && (Whole(x) ==> |s.buf| < 4 + Length(x) && Length(x) >= 0)
  {
    ShortWhole(s.buf, Bytes(s.answers));
    if |s.buf| >= 4 {
      SameLength(s.buf, Offered(s));
    }
    hide Bytes, Length;
  }

  lemma LullOnce(x: bytes, at: int, behind: bool, heard: bool, lulls: seq<Lull>, last: int, handler: Handler)
    requires lulls != []
    requires lulls[0].place < at + 4
             || (!behind && |x| >= 4 && 0 <= Length(x) <= MAXMESSAGE && lulls[0].place < at + 4 + Length(x))
    ensures Foretold(x, at, behind, heard, lulls, last, handler)
         == if !behind && lulls[0].hard then ([], Closes)
            else Foretold(x, at, false, !lulls[0].hard, lulls[1..], last, handler)
  {
    hide Length, RefusedAhead;
  }

  lemma MessageOnce(x: bytes, at: int, behind: bool, heard: bool, lulls: seq<Lull>, last: int, handler: Handler)
    requires Whole(x) && !(behind && RefusedAhead(x)) && (lulls == [] || lulls[0].place >= at + 4 + Length(x))
    ensures var m, e := Payload(x), at + 4 + Length(x);
            var how := if m == [] then Fine else handler(e, m);
            Foretold(x, at, behind, heard, lulls, last, handler)
            == if Breaks(how, heard) then ([m], Closes)
               else if (m == [] || !how.Fine?) && e > last then ([m], Lasts)
               else Before(m, Foretold(After(x), e, m != [] && how.Fine?, heard || !how.Fine?, lulls, last, handler))
  {
    hide Length, RefusedAhead;
  }

  // ------------------------------------------------------------------ case by case

  /** A message at the front is taken, and handled. */
  lemma WholeFirst(s: In, handler: Handler)
    requires Whole(s.buf)
    ensures var m, r := Payload(s.buf), s.(buf := After(s.buf));
            && Recvd(s, handler) == (if m == [] then (KeepAlive, r) else Concluded(r, m, handler(Place(r), m)))
            && Place(r) == Place(s) + 4 + Length(s.buf)
            && Whole(Offered(s)) && Payload(Offered(s)) == m && After(Offered(s)) == Offered(r)
            && |Offered(r)| < |Offered(s)| && Length(Offered(s)) == Length(s.buf) >= 0 && s.buf <= Offered(s)
            && Place(r) <= s.readCount
  {
    var len := Length(s.buf);
    TakenOff(s, len + 4);
    SameLength(s.buf, Offered(s));
    hide Length, LookedAhead, Bytes;
    assert Peeked(s, 4) == (true, s) && Peeked(s, len + 4) == (true, s);
  }

  /** What the message at the front leads to, once it is buffered. */
  lemma WholeCourse(s: In, behind: bool, handler: Handler)
    requires Whole(s.buf) && !(behind && RefusedAhead(s.buf))
    ensures var m, r := Payload(s.buf), s.(buf := After(s.buf));
            var how := if m == [] then Fine else handler(Place(r), m);
            Course(s, behind, handler)
            == if Breaks(how, s.error == Again) then ([m], Closes)
               else if (m == [] || !how.Fine?) && s.answers == [] then ([m], Lasts)
               else Before(m, Course(if how.Fine? then r else r.(error := Again), m != [] && how.Fine?, handler))
  {
    var m, r := Payload(s.buf), s.(buf := After(s.buf));
    var how := if m == [] then Fine else handler(Place(r), m);
    var lulls, x, y := Lulls(s.answers, s.readCount, s.errorCount), Offered(s), Offered(r);
    hide *;
    WholeFirst(s, handler);
    SameLength(s.buf, x);
    SameRefusal(s.buf, x);
    FirstLull(s);
    CourseIs(s, behind, handler);
    CourseIs(r, m != [] && how.Fine?, handler);
    CourseIs(r.(error := Again), m != [] && how.Fine?, handler);
    ErrorAside(r);
    MessageOnce(x, Place(s), behind, s.error == Again, lulls, Last(s), handler);
    if s.answers == [] && m != [] && how.Fine? {
      WholeLength(y);
      SameCourse(y, Place(r), true, s.error == Again, lulls, Last(s), Last(r), handler);
    }
  }

  lemma FirstLull(s: In)
    ensures var lulls := Lulls(s.answers, s.readCount, s.errorCount); lulls != [] ==> lulls[0].place >= s.readCount
  {
    LullsInOrder(s.answers, s.readCount, s.errorCount);
  }

  lemma ErrorAside(s: In)
    ensures var t := s.(error := Again); Offered(t) == Offered(s) && Place(t) == Place(s) && Last(t) == Last(s)
  {
  }

  lemma SameRefusal(b: bytes, x: bytes)
    requires |b| >= 4 && |x| >= 4 && Ahead(b) == Ahead(x)
    ensures RefusedAhead(b) <==> RefusedAhead(x)
  {
  }

  lemma WholeLength(x: bytes)
    ensures Whole(x) ==> Length(x) >= 0
  {
    hide Length;
  }

  lemma ShortEnds(s: In, behind: bool, handler: Handler)
    requires Short(s.buf) && s.answers == [] && (behind ==> |s.buf| < 4)
    ensures Course(s, behind, handler) == ([], Lasts)
  {
    assert Offered(s) == s.buf;
  }

  lemma OnwardBefore(m: bytes, got: Got, r: In, handler: Handler)
    ensures Onward([m], got, r, handler) == Before(m, Onward([], got, r, handler))
  {
    OnwardNone(got, r, handler);
    hide Driven;
    assert [m] + [] == [m];
  }

  lemma OnwardNone(got: Got, r: In, handler: Handler)
    ensures Onward([], got, r, handler)
         == if EndOf(got, r) != Lasts then ([], EndOf(got, r)) else (Driven(r, handler).0, Driven(r, handler).2)
  {
    hide Driven;
    var more := Driven(r, handler).0;
    assert [] + more == more;
  }

  /** A length that is not allowed, looked at as the first. */
  lemma BadRun(s: In, handler: Handler)
    requires !Short(s.buf) && !Whole(s.buf)
    ensures RunOn(s, handler) == Course(s, false, handler)
  {
    RunOnOnce(s, handler);
    SameLength(s.buf, Offered(s));
    LullsInOrder(s.answers, s.readCount, s.errorCount);
    hide RunOn, Length, Framed, Bytes, Lulls;
    assert Peeked(s, 4) == (true, s);
  }

  // ------------------------------------------------------------- what comes true

  /** From any state of the buffer a run comes out as foretold. */
  lemma {:induction false} RunIsForetold(s: In, handler: Handler)
    requires Calm(s)
    ensures RunOn(s, handler) == Course(s, false, handler)
    decreases |s.answers| + |Offered(s)|, 3
  {
    if Short(s.buf) {
      RunOnOnce(s, handler);
      ShortReads(s, handler);
      hide RunOn, Course, Recvd, Short;
      if s.answers == [] {
        ShortEnds(s, false, handler);
        OnwardNone(Error, Failing(s, Again), handler);
        DrivenOnce(Failing(s, Again), handler);
      } else if !Brings(s.answers[0]) {
        LulledCourse(s, false, handler);
        AfterLull(s, handler);
        OnwardNone(Error, Lulled(s), handler);
        hide *;
      } else {
        FedIs(s, 0);
        FedCourse(s, false, handler);
        RunOnOnce(Fed(s), handler);
        hide Onward;
        RunIsForetold(Fed(s), handler);
      }
    } else if Whole(s.buf) {
      WholeRun(s, handler);
    } else {
      BadRun(s, handler);
    }
  }

  /** After a lull the client is run anew, if there is another answer. */
  lemma {:induction false} AfterLull(s: In, handler: Handler)
    requires Calm(s) && s.answers != [] && !Brings(s.answers[0]) && Short(s.buf)
    ensures var (more, _, end) := Driven(Lulled(s), handler); (more, end) == Course(Lulled(s), false, handler)
    decreases |s.answers| + |Offered(s)|, 0
  {
    var r := Lulled(s);
    LulledIs(s, 0);
    DrivenOnce(r, handler);
    hide RunOn, Driven, Course, Short, Lulls;
    if r.answers == [] {
      ShortEnds(r, false, handler);
    } else {
      RunIsForetold(r, handler);
    }
  }

  /** A message is handled, and the run goes on behind it or anew. */
  lemma {:induction false} WholeRun(s: In, handler: Handler)
    requires Calm(s) && Whole(s.buf)
    ensures RunOn(s, handler) == Course(s, false, handler)
    decreases |s.answers| + |Offered(s)|, 2
  {
    RunOnOnce(s, handler);
    WholeFirst(s, handler);
    WholeCourse(s, false, handler);
    var m, r := Payload(s.buf), s.(buf := After(s.buf));
    var how := if m == [] then Fine else handler(Place(r), m);
    hide RunOn, Course, Recvd, Driven, Whole, Bytes;
    if m != [] && how.Fine? {
      BehindIsForetold(r, m, handler);
      var (got, t) := LookedAhead(r, m);
      LookedAheadIs(r, m);
      hide LookedAhead;
      OnwardBefore(m, got, t, handler);
    } else {
      var t := if how.Broke? then r.(error := how.e) else r;
      if !Breaks(how, s.error == Again) {
        DrivenOnce(t, handler);
        assert Taken(if m == [] then KeepAlive else Stopped(m)) == [m];
        assert [m] + [] == [m];
        if t.answers != [] {
          RunIsForetold(t, handler);
        }
      }
    }
  }

  /** The look at the next header, from behind message `m`. */
  lemma {:induction false} BehindIsForetold(s: In, m: bytes, handler: Handler)
    requires Calm(s)
    ensures RunBehind(s, m, handler) == Course(s, true, handler)
    decreases |s.answers| + |Offered(s)|, 4, 1
  {
    if |s.buf| >= 4 {
      BehindHeader(s, m, handler);
    } else if s.answers == [] {
      ShortEnds(s, true, handler);
      OnwardNone(Message(m, false), Failing(s, Again), handler);
      DrivenOnce(Failing(s, Again), handler);
    } else if !Brings(s.answers[0]) {
      LulledIs(s, 4);
      LulledCourse(s, true, handler);
      AfterLull(s, handler);
      OnwardNone(Message(m, false), Lulled(s), handler);
      hide Course, Driven, Lulled, RunOn, Onward, Peeked, Lulls;
    } else {
      FedIs(s, 4);
      FedCourse(s, true, handler);
      hide Course, Peeked, RunOn, Onward;
      BehindIsForetold(Fed(s), m, handler);
    }
  }

  lemma {:induction false} BehindHeader(s: In, m: bytes, handler: Handler)
    requires Calm(s) && |s.buf| >= 4
    ensures RunBehind(s, m, handler) == Course(s, true, handler)
    decreases |s.answers| + |Offered(s)|, 4, 0
  {
    assert Peeked(s, 4) == (true, s);
    var (got, r) := LookedAhead(s, m);
    OnwardNone(got, r, handler);
    HeaderCourse(s, handler);
    hide Course, RunOn, Driven, Onward, Peeked;
    if !RefusedAhead(s.buf) {
      RunIsForetold(s, handler);
      DrivenOnce(s, handler);
      if s.answers == [] && |s.buf| < Ahead(s.buf) {
        AheadIsShort(s.buf);
        ShortEnds(s, false, handler);
      }
    }
  }

  lemma AheadIsShort(b: bytes)
    requires |b| >= 4 && !RefusedAhead(b) && |b| < Ahead(b)
    ensures Short(b)
  {
    PassedThoughBadIff(b);
    AheadIsLength(b);
    hide Length, Ahead;
  }

  lemma HeaderCourse(s: In, handler: Handler)
    requires |s.buf| >= 4
    ensures Course(s, true, handler) == if RefusedAhead(s.buf) then ([], Closes) else Course(s, false, handler)
  {
    LullsInOrder(s.answers, s.readCount, s.errorCount);
    SameLength(s.buf, Offered(s));
    hide Length, Ahead, Bytes, Lulls, Whole;
  }

  // ----------------------------------------------------------------- main theorems

  /** A new connection, and what its socket is going to answer. */
  function Start(answers: seq<Recv>): In {
    In([], answers, NoError, 0, 0)
  }

  /** Whatever the socket answers and the handler does, a connection comes out as
      foretold: by its bytes, by the lulls and by where the last answer comes. */
  lemma DrivenIsForetold(answers: seq<Recv>, handler: Handler)
    ensures var (ms, _, end) := Driven(Start(answers), handler);
            (ms, end)
            == Foretold(Bytes(answers), 0, false, false, Lulls(answers, 0, 0), LastAt(answers, 0), handler)
  {
    var s := Start(answers);
    assert Calm(s) && Offered(s) == Bytes(answers) && Place(s) == 0;
    hide *;
    DrivenOnce(s, handler);
    CourseIs(s, false, handler);
    if answers != [] {
      RunIsForetold(s, handler);
    } else {
      NothingForetold(handler);
    }
  }

  lemma NothingForetold(handler: Handler)
    ensures Foretold(Bytes([]), 0, false, false, Lulls([], 0, 0), LastAt([], 0), handler) == ([], Lasts)
  {
  }

  /** So how the bytes are cut matters only through the lulls and the last cut. */
  lemma OnlyLullsMatter(a: seq<Recv>, b: seq<Recv>, handler: Handler)
    requires Bytes(a) == Bytes(b) && Lulls(a, 0, 0) == Lulls(b, 0, 0) && LastAt(a, 0) == LastAt(b, 0)
    ensures Driven(Start(a), handler).0 == Driven(Start(b), handler).0
    ensures Driven(Start(a), handler).2 == Driven(Start(b), handler).2
  {
    DrivenIsForetold(a, handler);
    DrivenIsForetold(b, handler);
    hide *;
  }

  // ------------------------------------------------------- messages left unreported

  ghost predicate NoErrors(handler: Handler) {
    forall at, m :: handler(at, m).Fine?
  }

  ghost predicate Soft(lulls: seq<Lull>) {
    forall i :: 0 <= i < |lulls| ==> !lulls[i].hard
  }

  /** The socket never fails, nor gives more than ten empty answers in a row. */
  ghost predicate Flowing(answers: seq<Recv>) {
    Soft(Lulls(answers, 0, 0))
  }

  /** A keep-alive with another message behind it. */
  ghost predicate Halts(ms: seq<bytes>) {
    exists i :: 0 <= i < |ms| - 1 && ms[i] == []
  }

  /** What is buffered as the last answer comes, its own bytes included. */
  ghost function Pending(answers: seq<Recv>): bytes {
    if answers == [] then []
    else Left(Bytes(answers[..|answers| - 1])) + Piece(answers[|answers| - 1])
  }

  lemma HaltsBehind(m: bytes, ms: seq<bytes>)
    ensures Halts([m] + ms) <==> (m == [] && ms != []) || Halts(ms)
  {
    var all := [m] + ms;
    assert all[0] == m;
    if Halts(ms) {
      var i :| 0 <= i < |ms| - 1 && ms[i] == [];
      assert all[i + 1] == [];
    }
    if Halts(all) {
      var i :| 0 <= i < |all| - 1 && all[i] == [];
      assert i > 0 ==> ms[i - 1] == [];
    }
  }

  /** A lull comes before the message at the front is whole. */
  ghost predicate LullFirst(x: bytes, at: int, lulls: seq<Lull>) {
    lulls != [] && lulls[0].place < at + 4 + if |x| >= 4 then Length(x) else 0
  }

  /** What is foretold when neither the header at the front nor the lulls nor the
      handler break the connection. */
  lemma SoundOnce(x: bytes, at: int, behind: bool, heard: bool, lulls: seq<Lull>, last: int, handler: Handler)
    requires |x| >= 4 ==> 0 <= Length(x) <= MAXMESSAGE - 4
    requires NoErrors(handler) && Soft(lulls)
    ensures Foretold(x, at, behind, heard, lulls, last, handler)
         == if LullFirst(x, at, lulls) then Foretold(x, at, false, true, lulls[1..], last, handler)
            else if !Whole(x) then ([], Lasts)
            else if Payload(x) == [] && at + 4 > last then ([[]], Lasts)
            else Before(Payload(x), Foretold(After(x), at + 4 + Length(x), Payload(x) != [], heard, lulls, last, handler))
  {
    if |x| >= 4 {
      RefusedThoughFineIff(x);
    }
    hide Length, RefusedAhead;
  }

  /** Once the last answer has come, the first keep-alive ends it all. */
  lemma {:induction false} LateCourse(x: bytes, at: int, behind: bool, heard: bool, lulls: seq<Lull>, last: int,
                                      handler: Handler)
    requires Sound(x) && NoErrors(handler) && Soft(lulls) && (Whole(x) ==> last < at + 4 + Length(x))
    ensures var (ms, end) := Foretold(x, at, behind, heard, lulls, last, handler);
            end == Lasts && (ms == Messages(x) <==> !Halts(Messages(x)))
    decreases |x| + |lulls|
  {
    SoundOnce(x, at, behind, heard, lulls, last, handler);
    hide Foretold, Length, Halts, NoErrors;
    if LullFirst(x, at, lulls) {
      LateCourse(x, at, false, true, lulls[1..], last, handler);
    } else if Whole(x) {
      var m := Payload(x);
      HaltsBehind(m, Messages(After(x)));
      NoneHalt(After(x));
      if m != [] {
        LateCourse(After(x), at + 4 + Length(x), true, heard, lulls, last, handler);
        SameBehind(m, Foretold(After(x), at + 4 + Length(x), true, heard, lulls, last, handler).0, Messages(After(x)));
      } else {
        SameBehind(m, [], Messages(After(x)));
      }
    } else {
      NoneHalt(x);
    }
  }

  lemma SameBehind(m: bytes, a: seq<bytes>, b: seq<bytes>)
    ensures [m] + a == [m] + b <==> a == b
    ensures a == [] ==> [m] + a == [m]
  {
    assert ([m] + a)[1..] == a && ([m] + b)[1..] == b;
  }

  lemma NoneHalt(x: bytes)
    ensures Whole(x) <==> Messages(x) != []
    ensures |Messages(x)| <= 1 ==> !Halts(Messages(x))
  {
  }

  lemma FrontOnce(front: bytes, b: bytes)
    requires Whole(front)
    ensures var x := front + b;
            && Whole(x) && Payload(x) == Payload(front) && After(x) == After(front) + b
            && Length(x) == Length(front) && |After(front)| == |front| - 4 - Length(x) && Left(front) == Left(After(front))
            && Messages(x) == [Payload(x)] + Messages(After(x)) && Messages(front) == [Payload(x)] + Messages(After(front))
            && (Sound(x) ==> Sound(After(x)) && 0 <= Length(x) <= MAXMESSAGE - 4)
  {
    WholeStays(front, b);
    SameLength(front, front + b);
    hide Length;
  }

  /** The last answer brings `b`, behind `front`. */
  lemma {:induction false} SoundCourse(front: bytes, b: bytes, at: int, behind: bool, heard: bool, lulls: seq<Lull>,
                                       last: int, handler: Handler)
    requires Sound(front + b) && NoErrors(handler) && Soft(lulls) && last == at + |front|
    ensures var (ms, end) := Foretold(front + b, at, behind, heard, lulls, last, handler);
            end == Lasts && (ms == Messages(front + b) <==> !Halts(Messages(Left(front) + b)))
    decreases |front| + |lulls|
  {
    var x := front + b;
    hide Foretold, Length, Halts, NoErrors, Messages;
    if !Whole(front) {
      PartFront(front, b);
      LateCourse(x, at, behind, heard, lulls, last, handler);
    } else {
      FrontOnce(front, b);
      SoundOnce(x, at, behind, heard, lulls, last, handler);
      hide Left, Sound, Whole;
      if LullFirst(x, at, lulls) {
        SoundCourse(front, b, at, false, true, lulls[1..], last, handler);
      } else {
        var m, e := Payload(x), at + 4 + Length(x);
        SoundCourse(After(front), b, e, m != [], heard, lulls, last, handler);
        SameBehind(m, Foretold(After(x), e, m != [], heard, lulls, last, handler).0, Messages(After(x)));
      }
    }
  }

  lemma PartFront(front: bytes, b: bytes)
    requires !Whole(front)
    ensures Left(front) == front && (Whole(front + b) ==> |front| < 4 + Length(front + b))
  {
    if |front| >= 4 {
      SameLength(front, front + b);
    }
  }

  lemma {:induction false} LastPiece(answers: seq<Recv>, at: int)
    requires answers != []
    ensures var n := |answers| - 1;
            && LastAt(answers, at) == at + |Bytes(answers[..n])|
            && Bytes(answers) == Bytes(answers[..n]) + Piece(answers[n])
  {
    var n := |answers| - 1;
    if n > 0 {
      var rest, b := answers[1..], Piece(answers[0]);
      LastPiece(rest, at + |b|);
      assert answers[..n][0] == answers[0] && answers[..n][1..] == rest[..n - 1];
      assert Bytes(answers[..n]) == b + Bytes(rest[..n - 1]);
      assert b + (Bytes(rest[..n - 1]) + Piece(answers[n])) == b + Bytes(rest[..n - 1]) + Piece(answers[n]);
    } else {
      assert answers[..0] == [] && Bytes(answers[1..]) == [];
    }
  }

  /** When a socket brings a sound stream, in pieces of any size and with answers
      missing anywhere, the connection lasts, and every message of the stream is
      taken just when, among those buffered as the last answer comes, no keep-alive
      has another message behind it. */
  lemma DrivenTakesAllIff(answers: seq<Recv>, handler: Handler)
    requires Flowing(answers) && Sound(Bytes(answers)) && NoErrors(handler)
    ensures var (ms, r, end) := Driven(Start(answers), handler);
            end == Lasts && (ms == Messages(Bytes(answers)) <==> !Halts(Messages(Pending(answers))))
  {
    DrivenIsForetold(answers, handler);
    hide Driven, Foretold, Halts, Lulls;
    if answers != [] {
      var n := |answers| - 1;
      LastPiece(answers, 0);
      SoundCourse(Bytes(answers[..n]), Piece(answers[n]), 0, false, false, Lulls(answers, 0, 0), LastAt(answers, 0), handler);
    } else {
      assert [] + [] == Bytes(answers);
      SoundCourse([], [], 0, false, false, Lulls(answers, 0, 0), 0, handler);
    }
  }

  /** Two connections that bring the same sound stream in different ways take the
      same messages, all of them, and hold the same rest, if in neither a keep-alive
      has another message behind it as the last answer comes. */
  lemma CutsDoNotMatter(a: seq<Recv>, b: seq<Recv>, handler: Handler)
    requires Bytes(a) == Bytes(b) && Sound(Bytes(a)) && NoErrors(handler)
    requires Flowing(a) && Flowing(b) && !Halts(Messages(Pending(a))) && !Halts(Messages(Pending(b)))
    ensures Driven(Start(a), handler).0 == Driven(Start(b), handler).0 == Messages(Bytes(a))
    ensures Driven(Start(a), handler).1.buf == Driven(Start(b), handler).1.buf == Left(Bytes(a))
  {
    forall u | u == a || u == b
      ensures Driven(Start(u), handler).0 == Messages(Bytes(a)) && Driven(Start(u), handler).1.buf == Left(Bytes(a))
    {
      DrivenTakesAllIff(u, handler);
      DrivenTakesFirst(Start(u), handler);
      hide Driven, Halts, Sound, Flowing;
      assert Offered(Start(u)) == Bytes(u);
    }
  }

  /** For one: a keep-alive and a message of one byte that come together. */
  lemma KeepAliveHidesNext(x: byte, handler: Handler)
    ensures var b := Header(0) + (Header(1) + [x]);
            Messages(b) == [[], [x]] && Driven(Start([Data(b)]), handler).0 == [[]]
  {
    var b1 := Header(1) + [x];
    var b := Header(0) + b1;
    SentOne([x]);
    SentOne([]);
    assert Header(0) + [] == Header(0);
    MessagesJoin(Header(0), b1);
    DrivenIsForetold([Data(b)], handler);
    LengthOfHeader(0, b1);
    hide Driven, Header, Length, Messages;
    assert b + [] == b && Bytes([Data(b)]) == b;
  }
}
