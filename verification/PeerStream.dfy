/** The messages of a peer, taken from its stream and given to it. */
module PeerStream {
  import opened StrBuf
  import opened Frames
  import opened Streams

  /** What a call of `recv_peermsg` comes to: an error, the end of the program on
      a negative length, a keep-alive, a message with more behind it or not, one
      with a header behind it that is refused, or one that could not be handled. */
  datatype Got = Error | Died | KeepAlive | Message(m: bytes, more: bool) | Refused(m: bytes) | Stopped(m: bytes)

  /** How the handling of a message ends: well, as one of an unknown kind, or with
      an error of the stream. */
  datatype Handled = Fine | Unknown | Broke(e: Errno)

  /** The outcome hangs on the message and on where it stands in the stream. */
  type Handler = (int, bytes) -> Handled

  /** The messages it took off the stream. */
  function Taken(got: Got): seq<bytes> {
    match got
    case KeepAlive => [[]]
    case Message(m, _) => [m]
    case Refused(m) => [m]
    case Stopped(m) => [m]
    case _ => []
  }

  /** Is there another message waiting behind `m`? */
  function LookedAhead(s: In, m: bytes): (Got, In) {
    PeekedIs(s, 4);
    var (ok, p) := Peeked(s, 4);
    if !ok then (Message(m, false), p)
    else if RefusedAhead(p.buf) then (Refused(m), p.(error := LargePacket))
    else (Message(m, |p.buf| >= Ahead(p.buf)), p)
  }

  /** `kStream_in_addr`: how many bytes have been taken off. */
  function Place(s: In): int {
    s.readCount - |s.buf|
  }

  /** What comes of a message, once it is handled. */
  function Concluded(s: In, m: bytes, how: Handled): (Got, In) {
    match how
    case Fine => LookedAhead(s, m)
    case Unknown => (Stopped(m), s)
    case Broke(e) => (Stopped(m), s.(error := e))
  }

  /** `recv_peermsg`. */
  function Recvd(s: In, handler: Handler): (Got, In) {
    PeekedIs(s, 4);
    var (ok, p) := Peeked(s, 4);
    if !ok then (Error, p)
    else if Length(p.buf) > MAXMESSAGE then (Error, p.(error := LargePacket))
    else if Length(p.buf) < 0 then (Died, p)
    else Framed(p, Length(p.buf), handler)
  }

  /** The message of a length, once all of it is there. */
  function Framed(s: In, len: nat, handler: Handler): (Got, In)
    requires |s.buf| >= 4
  {
    PeekedIs(s, len + 4);
    if len == 0 then (KeepAlive, s.(buf := s.buf[4..]))
    else
      var (ok, q) := Peeked(s, len + 4);
      if !ok then (Error, q)
      else
        var m, r := q.buf[4..len + 4], q.(buf := q.buf[len + 4..]);
        Concluded(r, m, handler(Place(r), m))
  }

  /** The messages `ms` are taken off the front of `x`, which leaves `y`. */
  ghost predicate Takes(x: bytes, ms: seq<bytes>, y: bytes) {
    Messages(x) == ms + Messages(y) && Left(x) == Left(y)
  }

  lemma TakesNothing(x: bytes)
    ensures Takes(x, [], x)
  {
    assert [] + Messages(x) == Messages(x);
  }

  lemma TakesOne(x: bytes)
    requires Whole(x)
    ensures Takes(x, [Payload(x)], After(x))
  {
  }

  lemma TakesMore(x: bytes, a: seq<bytes>, y: bytes, b: seq<bytes>, z: bytes)
    requires Takes(x, a, y) && Takes(y, b, z)
    ensures Takes(x, a + b, z)
  {
    assert a + (b + Messages(z)) == a + b + Messages(z);
  }

  lemma SameLength(s: bytes, t: bytes)
    requires |s| >= 4 && s <= t
    ensures Length(s) == Length(t) && Ahead(s) == Ahead(t)
  {
    assert Unsigned(s) == Unsigned(t);
  }

  lemma AheadIsLength(h: bytes)
    requires |h| >= 4
    ensures 0 <= Length(h) <= MAXMESSAGE ==> Ahead(h) == Length(h) + 4
  {
  }

  /** What the result says of the bytes still buffered. */
  ghost predicate Tells(got: Got, rest: bytes, error: Errno) {
    match got
    case Error => !Whole(rest) && (|rest| >= 4 ==> Length(rest) >= 0) && (error == LargePacket ==> |rest| >= 4 && Length(rest) > MAXMESSAGE)
    case Died => |rest| >= 4 && Length(rest) < 0
    case KeepAlive => true
    case Message(_, more) => if more then |rest| >= 4 && !RefusedAhead(rest) && |rest| >= Ahead(rest) else !Whole(rest)
    case Refused(_) => |rest| >= 4 && RefusedAhead(rest) && error == LargePacket
    case Stopped(_) => true
  }

  /** A call either takes nothing, or the one message at the front of all that is
      offered; it never does nothing at all while the socket has an answer. */
  ghost predicate Steps(s: In, got: Got, r: In) {
    && (if Taken(got) == [] then Offered(r) == Offered(s)
        else Whole(Offered(s)) && Taken(got) == [Payload(Offered(s))] && Offered(r) == After(Offered(s)))
    && Takes(Offered(s), Taken(got), Offered(r))
    && |r.answers| <= |s.answers|
    && (got.Error? && s.answers != [] ==> |r.answers| < |s.answers| || r.error == LargePacket)
  }

  lemma LookedAheadIs(s: In, m: bytes)
    ensures var (got, r) := LookedAhead(s, m);
            && Taken(got) == [m] && Tells(got, r.buf, r.error)
            && Offered(r) == Offered(s) && |r.answers| <= |s.answers| && !got.Error? && !got.Died? && !got.Stopped?
  {
    PeekedIs(s, 4);
    var (ok, p) := Peeked(s, 4);
    if ok {
      AheadIsLength(p.buf);
    }
    hide Peeked, Ahead, Length, Bytes;
  }

  lemma FramedIs(s: In, len: nat, handler: Handler)
    requires |s.buf| >= 4 && Length(s.buf) == len <= MAXMESSAGE
    ensures var (got, r) := Framed(s, len, handler); Steps(s, got, r) && Tells(got, r.buf, r.error)
  {
    PeekedIs(s, len + 4);
    var (ok, q) := Peeked(s, len + 4);
    hide Peeked, Takes, Length, Ahead, LookedAhead, RefusedAhead, Bytes, Offered, Steps, Tells;
    if len == 0 {
      FramedEmpty(s);
    } else {
      SameLength(s.buf, q.buf);
      if ok {
        FramedWhole(q, len, handler);
        var (got, r) := Framed(s, len, handler);
        StepsFrom(s, q, got, r);
      } else {
        FramedShort(s, q, len);
      }
    }
  }

  lemma FramedEmpty(s: In)
    requires |s.buf| >= 4 && Length(s.buf) == 0
    ensures var r := s.(buf := s.buf[4..]); Steps(s, KeepAlive, r) && Tells(KeepAlive, r.buf, r.error)
  {
    TakenOff(s, 4);
    TakesOne(Offered(s));
    hide Length, Bytes, Takes;
  }

  lemma FramedShort(s: In, q: In, len: nat)
    requires Offered(q) == Offered(s) && |q.answers| <= |s.answers| && (s.answers != [] ==> |q.answers| < |s.answers|)
    requires 4 <= |q.buf| < len + 4 && Length(q.buf) == len && !q.error.LargePacket?
    ensures Steps(s, Error, q) && Tells(Error, q.buf, q.error)
  {
    hide Length, Bytes, Takes;
    TakesNothing(Offered(s));
  }

  lemma StepsFrom(s: In, q: In, got: Got, r: In)
    requires Offered(q) == Offered(s) && |q.answers| <= |s.answers| && Steps(q, got, r) && !got.Error?
    ensures Steps(s, got, r)
  {
    hide Takes, Offered, Whole;
  }

  lemma FramedWhole(q: In, len: nat, handler: Handler)
    requires |q.buf| >= len + 4 && Length(q.buf) == len && 0 < len <= MAXMESSAGE
    ensures var m, r := q.buf[4..len + 4], q.(buf := q.buf[len + 4..]);
            var (got, t) := Concluded(r, m, handler(Place(r), m));
            Steps(q, got, t) && Tells(got, t.buf, t.error) && Taken(got) == [m]
  {
    var m, r := q.buf[4..len + 4], q.(buf := q.buf[len + 4..]);
    TakenOff(q, len + 4);
    TakesOne(Offered(q));
    LookedAheadIs(r, m);
    hide Takes, Length, Ahead, LookedAhead, RefusedAhead, Bytes, Offered, Whole;
  }

  /** The buffered bytes of a whole message are the front of all that is offered. */
  lemma TakenOff(s: In, n: nat)
    requires 4 <= n <= |s.buf| && Length(s.buf) == n - 4 <= MAXMESSAGE
    ensures var x := Offered(s);
            Whole(x) && Payload(x) == s.buf[4..n] && After(x) == Offered(s.(buf := s.buf[n..]))
  {
    SameLength(s.buf, Offered(s));
    hide Length, Bytes;
    var more := Bytes(s.answers);
    assert s.buf + more == s.buf[..n] + (s.buf[n..] + more);
  }

  lemma RecvdIs(s: In, handler: Handler)
    ensures var (got, r) := Recvd(s, handler);
            && Steps(s, got, r) && Tells(got, r.buf, r.error)
            && (got.Died? <==> Taken(got) == [] && |r.buf| >= 4 && Length(r.buf) < 0)
  {
    PeekedIs(s, 4);
    TakesNothing(Offered(s));
    var (ok, p) := Peeked(s, 4);
    hide Peeked, Length, Ahead, Framed, Takes, Bytes;
    if ok && 0 <= Length(p.buf) <= MAXMESSAGE {
      FramedIs(p, Length(p.buf), handler);
    }
  }

  /** `client_run`: messages are taken while there are more. */
  function Client(s: In, handler: Handler): (r: (seq<bytes>, Got, In))
    decreases |Offered(s)|
  {
    RecvdIs(s, handler);
    var (got, r) := Recvd(s, handler);
    if got.Message? && got.more then
      var (ms, last, t) := Client(r, handler);
      ([got.m] + ms, last, t)
    else (Taken(got), got, r)
  }

  /** What becomes of the connection, or of the whole program. */
  datatype Ending = Lasts | Closes | Dies

  function EndOf(last: Got, s: In): Ending {
    if last.Died? then Dies
    else if (last.Error? || last.Refused? || last.Stopped?) && s.error != Again then Closes
    else Lasts
  }

  /** A run takes whole messages off the front of what is offered. One may be
      left waiting whole in the buffer only behind a keep-alive or a message that
      could not be handled, or when a header is refused. */
  lemma {:induction false} ClientIs(s: In, handler: Handler)
    ensures var (ms, last, r) := Client(s, handler);
            && Takes(Offered(s), ms, Offered(r)) && |Offered(r)| <= |Offered(s)| && |r.answers| <= |s.answers|
            && Tells(last, r.buf, r.error) && !(last.Message? && last.more)
            && (EndOf(last, r) == Lasts && s.answers != [] ==> |r.answers| < |s.answers| || |Offered(r)| < |Offered(s)|)
            && (last.KeepAlive? ==> ms != [] && ms[|ms| - 1] == [])
    decreases |Offered(s)|
  {
    RecvdIs(s, handler);
    var (got, r) := Recvd(s, handler);
    hide Recvd, Takes, Tells, Bytes;
    if got.Message? && got.more {
      ClientIs(r, handler);
      var (ms, last, t) := Client(r, handler);
      TakesMore(Offered(s), [got.m], Offered(r), ms, Offered(t));
    }
  }

  /** The runs of a client while its socket has an answer: the messages taken,
      what is left, and how it ends. */
  function Driven(s: In, handler: Handler): (r: (seq<bytes>, In, Ending))
    decreases |s.answers| + |Offered(s)|
  {
    if s.answers == [] then ([], s, Lasts)
    else
      ClientIs(s, handler);
      var (ms, last, r) := Client(s, handler);
      if EndOf(last, r) != Lasts then (ms, r, EndOf(last, r))
      else
        var (more, t, end) := Driven(r, handler);
        (ms + more, t, end)
  }

  lemma {:induction false} DrivenIs(s: In, handler: Handler)
    ensures var (ms, r, end) := Driven(s, handler);
            Takes(Offered(s), ms, Offered(r)) && (end == Lasts ==> r.answers == [])
    decreases |s.answers| + |Offered(s)|
  {
    if s.answers == [] {
      TakesNothing(Offered(s));
    } else {
      ClientIs(s, handler);
      var (ms, last, r) := Client(s, handler);
      hide Client, Takes, Tells, Bytes;
      if EndOf(last, r) == Lasts {
        DrivenIs(r, handler);
        var (more, t, end) := Driven(r, handler);
        TakesMore(Offered(s), ms, Offered(r), more, Offered(t));
      }
    }
  }

  /** However the socket cuts the stream, a client takes the first of the messages
      in all the bytes offered. While the connection lasts it has read them all,
      and it has taken all of them just when none waits whole in the buffer. */
  lemma DrivenTakesFirst(s: In, handler: Handler)
    ensures var (ms, r, end) := Driven(s, handler);
            && ms <= Messages(Offered(s))
            && (end == Lasts ==>
                  && r.answers == [] && Left(r.buf) == Left(Offered(s))
                  && (ms == Messages(Offered(s)) <==> !Whole(r.buf)))
  {
    DrivenIs(s, handler);
    var (ms, r, end) := Driven(s, handler);
    hide Driven;
    assert end == Lasts ==> Offered(r) == r.buf by {
      assert r.answers == [] ==> r.buf + [] == r.buf;
    }
  }

  // ----------------------------------------------------------------- the code's form

  /** The framing of `recv_peermsg`, around the handling of the message. */
  method RecvMessage(ios: Stream, handler: Handler) returns (got: Got)
    requires ios.Valid()
    modifies ios`answers, ios`error, ios`errorCount, ios`readCount, ios.ibuf, ios.ibuf.buf
    ensures ios.Valid() && (ios.ibuf.buf == old(ios.ibuf.buf) || fresh(ios.ibuf.buf))
    ensures (got, ios.Incoming()) == Recvd(old(ios.Incoming()), handler)
  {
    hide Peeked, Length, Framed;
    PeekedIs(ios.Incoming(), 4);
    var n, h := ios.Fpeek(4);
    if n < 0 {
      return Error;
    }
    SameLength(h, ios.Incoming().buf);
    var len := Length(h);
    if len > MAXMESSAGE {
      ios.error := LargePacket;
      return Error;
    }
    if len < 0 {
      return Died;
    }
    got := TakeMessage(ios, len, handler);
  }

  lemma FramedOnce(s: In, len: nat, handler: Handler)
    requires |s.buf| >= 4
    ensures Peeked(s, len + 4).0 ==> |Peeked(s, len + 4).1.buf| >= len + 4
    ensures var (ok, q) := Peeked(s, len + 4);
            Framed(s, len, handler) == if len == 0 then (KeepAlive, s.(buf := s.buf[4..]))
                                       else if !ok then (Error, q)
                                       else var m, r := q.buf[4..len + 4], q.(buf := q.buf[len + 4..]);
                                            Concluded(r, m, handler(Place(r), m))
  {
    PeekedIs(s, len + 4);
    hide Peeked, Concluded;
  }

  /** Takes off the message whose length is known, once it is all there. */
  method TakeMessage(ios: Stream, len: nat, handler: Handler) returns (got: Got)
    requires ios.Valid() && |ios.Incoming().buf| >= 4
    modifies ios`answers, ios`error, ios`errorCount, ios`readCount, ios.ibuf, ios.ibuf.buf
    ensures ios.Valid() && (ios.ibuf.buf == old(ios.ibuf.buf) || fresh(ios.ibuf.buf))
    ensures (got, ios.Incoming()) == Framed(old(ios.Incoming()), len, handler)
  {
    PeekedIs(ios.Incoming(), 4);
    PeekedIs(ios.Incoming(), len + 4);
    FramedOnce(ios.Incoming(), len, handler);
    hide Peeked, Concluded, Length, Bytes, Offered, Framed;
    var n, msg;
    if len == 0 {
      n, msg := ios.Fread(4);
      return KeepAlive;
    }
    n, msg := ios.Fread(len + 4);
    if n < 0 {
      return Error;
    }
    got := Conclude(ios, msg[4..], handler(ios.readCount - ios.ibuf.cpos, msg[4..]));
  }

  method Conclude(ios: Stream, m: bytes, how: Handled) returns (got: Got)
    requires ios.Valid()
    modifies ios`answers, ios`error, ios`errorCount, ios`readCount, ios.ibuf, ios.ibuf.buf
    ensures ios.Valid() && (ios.ibuf.buf == old(ios.ibuf.buf) || fresh(ios.ibuf.buf))
    ensures (got, ios.Incoming()) == Concluded(old(ios.Incoming()), m, how)
  {
    hide LookedAhead;
    match how {
      case Fine => got := LookAhead(ios, m);
      case Unknown => got := Stopped(m);
      case Broke(e) =>
        ios.error := e;
        got := Stopped(m);
    }
  }

  method LookAhead(ios: Stream, m: bytes) returns (got: Got)
    requires ios.Valid()
    modifies ios`answers, ios`error, ios`errorCount, ios`readCount, ios.ibuf, ios.ibuf.buf
    ensures ios.Valid() && (ios.ibuf.buf == old(ios.ibuf.buf) || fresh(ios.ibuf.buf))
    ensures (got, ios.Incoming()) == LookedAhead(old(ios.Incoming()), m)
  {
    PeekedIs(ios.Incoming(), 4);
    hide Peeked, Ahead, Length;
    var n, h := ios.Fpeek(4);
    if n < 0 {
      return Message(m, false);
    }
    SameLength(h, ios.Incoming().buf);
    var tlen := Ahead(h);
    if tlen < 0 || tlen > MAXMESSAGE {
      ios.error := LargePacket;
      return Refused(m);
    }
    return Message(m, ios.ibuf.cpos >= tlen);
  }

  /** The loop of `client_run`. */
  method ClientRun(ios: Stream, handler: Handler) returns (ms: seq<bytes>, last: Got)
    requires ios.Valid()
    modifies ios`answers, ios`error, ios`errorCount, ios`readCount, ios.ibuf, ios.ibuf.buf
    ensures ios.Valid() && (ios.ibuf.buf == old(ios.ibuf.buf) || fresh(ios.ibuf.buf))
    ensures (ms, last, ios.Incoming()) == Client(old(ios.Incoming()), handler)
  {
    hide Recvd;
    ms, last := [], Error;
    assert [] + Client(ios.Incoming(), handler).0 == Client(ios.Incoming(), handler).0;
    var again := true;
    while again
      invariant ios.Valid() && (ios.ibuf.buf == old(ios.ibuf.buf) || fresh(ios.ibuf.buf))
      invariant var (all, end, r) := Client(old(ios.Incoming()), handler);
                if again then (all, end, r) == Behind(ms, Client(ios.Incoming(), handler))
                else (all, end, r) == (ms, last, ios.Incoming())
      decreases |Offered(ios.Incoming())|, again
    {
      RecvdIs(ios.Incoming(), handler);
      BehindMore(ms, ios.Incoming(), handler);
      last := RecvMessage(ios, handler);
      ms := ms + Taken(last);
      again := last.Message? && last.more;
      hide Steps, Tells;
    }
  }

  function Behind(ms: seq<bytes>, c: (seq<bytes>, Got, In)): (seq<bytes>, Got, In) {
    (ms + c.0, c.1, c.2)
  }

  lemma BehindMore(ms: seq<bytes>, s: In, handler: Handler)
    ensures var (got, r) := Recvd(s, handler);
            Behind(ms, Client(s, handler)) == if got.Message? && got.more then Behind(ms + Taken(got), Client(r, handler))
                                           else (ms + Taken(got), got, r)
    ensures var (got, r) := Recvd(s, handler); got.Message? && got.more ==> |Offered(r)| < |Offered(s)|
  {
    RecvdIs(s, handler);
    hide Recvd;
    var (got, r) := Recvd(s, handler);
    assert ms + (Taken(got) + Client(r, handler).0) == ms + Taken(got) + Client(r, handler).0;
  }

  // ------------------------------------------------------------------------- sending

  /** `send_message`: the length, then the message; `w1` and `w2` are what `write`
      answers. All of it is queued or written unless writing fails. */
  method SendMessage(ios: Stream, buf: bytes, w1: Wrote, w2: Wrote, ghost ms: seq<bytes>) returns (res: int)
    requires ios.Valid() && ios.Kept() && |buf| <= MAXMESSAGE && forall i :: 0 <= i < |ms| ==> |ms[i]| <= MAXMESSAGE
    requires ios.given == Sent(ms) && CanTake(w1, |ios.Outgoing().queue| + 4)
    requires CanTake(w2, |ios.Outgoing().queue| + 4 - Count(w1) + |buf|)
    modifies ios`error, ios`writeCount, ios`written, ios`given, ios.obuf, ios.obuf.buf
    ensures ios.Valid() && ios.Kept()
    ensures var o := old(ios.Outgoing());
            var (h, left) := Flushed(o.(queue := o.queue + Header(|buf|)), w1);
            if left < 0 then res == -1 && ios.given == Sent(ms) + Header(|buf|)
            else ios.given == Sent(ms + [buf])
                 && res == if |buf| > 0 && Flushed(h.(queue := h.queue + buf), w2).1 < 0 then -2 else 0
  {
    SentMore(ms, buf);
    hide Header, Sent;
    var left := ios.Fwrite(Header(|buf|), w1);
    if left < 0 {
      return -1;
    }
    if |buf| > 0 {
      left := ios.Fwrite(buf, w2);
      if left < 0 {
        return -2;
      }
    } else {
      assert Header(|buf|) + buf == Header(|buf|);
    }
    return 0;
  }

  lemma SentMore(ms: seq<bytes>, m: bytes)
    requires |m| <= MAXMESSAGE && forall i :: 0 <= i < |ms| ==> |ms[i]| <= MAXMESSAGE
    ensures Sent(ms + [m]) == Sent(ms) + (Header(|m|) + m)
    ensures Sent(ms) + (Header(|m|) + m) == Sent(ms) + Header(|m|) + m
  {
    assert (ms + [m])[..|ms|] == ms;
  }

  /** What one side has written, `on` being what it still holds, and the other is
      offered in whatever pieces comes out as the first of the messages sent, and
      as all of them once everything is written and none waits in the buffer. */
  lemma SentAreTaken(sent: seq<bytes>, s: In, on: bytes, handler: Handler)
    requires forall i :: 0 <= i < |sent| ==> |sent[i]| <= MAXMESSAGE
    requires Sent(sent) == Offered(s) + on
    ensures var (ms, r, end) := Driven(s, handler);
            && ms <= sent
            && (on == [] && end == Lasts && !Whole(r.buf) ==> ms == sent)
  {
    SentIsReceived(sent);
    MessagesGrow(Offered(s), on);
    DrivenTakesFirst(s, handler);
    assert on == [] ==> Offered(s) + on == Offered(s);
    hide Driven, Messages, Sent, Offered;
  }
}
