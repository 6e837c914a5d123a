/** Buffered reading and writing over a socket that gives and takes what it likes. */
module Streams {
  import opened StrBuf
  import opened Frames

  datatype Errno = NoError | Again | NetworkError | LargePacket | Other(code: int)

  /** What `recv` answers: some bytes or none, nothing yet, or a failure. */
  datatype Recv = Data(b: bytes) | WouldBlock | Failed(code: int)

  /** What `write` answers. */
  datatype Wrote = Took(n: nat) | WriteBlocked | WriteFailed(code: int)

  /** The most that one call asks `recv` for. */
  const CHUNK := 1024
  /** So many empty answers in a row are borne. */
  const MAX_EMPTY := 10

  // ------------------------------------------------------------------ the read side

  /** The bytes buffered and what the coming `recv` calls answer; after these,
      that there is nothing yet. */
  datatype In = In(buf: bytes, answers: seq<Recv>, error: Errno, errorCount: nat, readCount: nat)

  /** All the bytes the answers bring. */
  function Bytes(answers: seq<Recv>): bytes {
    if answers == [] then []
    else (if answers[0].Data? then answers[0].b else []) + Bytes(answers[1..])
  }

  /** The bytes there are to be had: buffered, or still in the socket. */
  function Offered(s: In): bytes {
    s.buf + Bytes(s.answers)
  }

  function Failing(s: In, e: Errno): In {
    if e != Again then s.(error := e)
    else s.(errorCount := s.errorCount + 1, error := if s.errorCount + 1 > MAX_EMPTY then NetworkError else Again)
  }

  /** `kStream_read`: one `recv` and its bytes; no bytes are a failure. */
  function Received(s: In): (bytes, In) {
    if s.answers == [] then ([], Failing(s, Again))
    else
      var rest := s.(answers := s.answers[1..]);
      match s.answers[0]
      case Data(b) =>
        if b == [] then ([], Failing(rest, Again))
        else (b, rest.(errorCount := 0, readCount := s.readCount + |b|))
      case WouldBlock => ([], Failing(rest, Again))
      case Failed(code) => ([], Failing(rest, Other(code)))
  }

  /** `kStream_fpeek`: reads until so many bytes are buffered or a read fails. */
  function Peeked(s: In, size: nat): (bool, In)
    decreases |s.answers|
  {
    if |s.buf| >= size then (true, s)
    else
      var (b, r) := Received(s);
      if b == [] then (false, r) else Peeked(r.(buf := s.buf + b), size)
  }

  /** Nothing offered is lost or repeated; a peek fails only after a read that
      found nothing, and there are too few bytes then. */
  lemma {:induction false} PeekedIs(s: In, size: nat)
    ensures var (ok, p) := Peeked(s, size);
            && Offered(p) == Offered(s) && s.buf <= p.buf && |p.answers| <= |s.answers|
            && (ok <==> |p.buf| >= size)
            && (|s.buf| >= size ==> p == s)
            && (!ok ==> (s.answers != [] ==> |p.answers| < |s.answers|) && !p.error.LargePacket? && !p.error.NoError?)
    decreases |s.answers|
  {
    if |s.buf| < size {
      var (b, r) := Received(s);
      ReceivedIs(s);
      if b != [] {
        var next := r.(buf := s.buf + b);
        assert s.buf + (b + Bytes(r.answers)) == s.buf + b + Bytes(r.answers);
        hide Received, Bytes;
        PeekedIs(next, size);
      }
    }
  }

  lemma ReceivedIs(s: In)
    ensures var (b, r) := Received(s);
            && Bytes(s.answers) == b + Bytes(r.answers) && r.buf == s.buf
            && (if s.answers == [] then r.answers == [] && b == [] else r.answers == s.answers[1..])
            && (b == [] ==> !r.error.LargePacket? && !r.error.NoError?)
  {
  }

  // ----------------------------------------------------------------- the write side

  datatype Out = Out(queue: bytes, error: Errno)

  predicate CanTake(w: Wrote, size: nat) {
    w.Took? ==> w.n <= size
  }

  function Count(w: Wrote): nat {
    if w.Took? then w.n else 0
  }

  /** `kStream_flush`: what is left queued, and the result. */
  function Flushed(o: Out, w: Wrote): (r: (Out, int))
    requires CanTake(w, |o.queue|)
    ensures r.0.queue == o.queue[Count(w)..]
    ensures r.1 == -1 <==> Count(w) == 0 && r.0.error != Again
    ensures r.1 != -1 ==> r.1 == |r.0.queue|
  {
    var error := match w
      case Took(n) => if n < |o.queue| then Again else o.error
      case WriteBlocked => Again
      case WriteFailed(code) => Other(code);
    var queue := o.queue[Count(w)..];
    (Out(queue, error), if Count(w) == 0 && error != Again then -1 else |queue|)
  }

  /** What a write leaves behind: "try again" when not all was taken, its error when it
      failed, and otherwise the error there was. */
  lemma FlushedError(o: Out, w: Wrote)
    requires CanTake(w, |o.queue|)
    ensures var r := Flushed(o, w).0;
            && (w.WriteFailed? ==> r.error == Other(w.code) && r.queue == o.queue)
            && (w.WriteBlocked? ==> r.error == Again && r.queue == o.queue)
            && (w.Took? && r.queue != [] ==> r.error == Again)
            && (w.Took? && r.queue == [] ==> r.error == o.error)
  {
  }

  // ----------------------------------------------------------------- the code's form

  class Stream {
    const ibuf: StringBuffer
    const obuf: StringBuffer
    var error: Errno
    var errorCount: nat
    var readCount: nat
    var writeCount: nat
    /** What the socket's coming `recv` calls answer. */
    var answers: seq<Recv>
    ghost var given: bytes
    ghost var written: bytes

    /** No `recv` gives more than it was asked for. */
    ghost predicate Valid()
      reads this, ibuf, obuf
    {
      && ibuf != obuf && ibuf.buf != obuf.buf && ibuf.Valid() && obuf.Valid()
      && forall i :: 0 <= i < |answers| && answers[i].Data? ==> |answers[i].b| <= CHUNK
    }

    ghost function Incoming(): (s: In)
      requires Valid()
      reads this, ibuf, obuf, ibuf.buf
      ensures s.answers == answers && s.error == error && |s.buf| == ibuf.cpos
    {
      In(ibuf.Contents(), answers, error, errorCount, readCount)
    }

    ghost function Outgoing(): (o: Out)
      requires Valid()
      reads this, ibuf, obuf, obuf.buf
      ensures |o.queue| == obuf.cpos
    {
      Out(obuf.Contents(), error)
    }

    /** Everything given has been written or is still queued, in order. */
    ghost predicate Kept()
      requires Valid()
      reads this, ibuf, obuf, obuf.buf
    {
      given == written + Outgoing().queue && writeCount == |written|
    }

    constructor ()
      ensures Valid() && Incoming() == In([], [], NoError, 0, 0)
      ensures Kept() && given == written == []
      ensures fresh(ibuf) && fresh(obuf) && fresh(ibuf.buf) && fresh(obuf.buf)
    {
      ibuf := new StringBuffer();
      obuf := new StringBuffer();
      error, errorCount, readCount, writeCount := NoError, 0, 0, 0;
      answers := [];
      given, written := [], [];
    }

    /** One `recv`; -1 when it gives nothing, and for good after more than ten
        empty answers in a row. */
    method Read() returns (nread: int, tbuf: bytes)
      requires Valid()
      modifies this`answers, this`error, this`errorCount, this`readCount
      ensures Valid() && (tbuf, Incoming()) == Received(old(Incoming()))
      ensures nread == if tbuf == [] then -1 else |tbuf|
    {
      tbuf, nread := [], -1;
      var errno := Again;
      if answers != [] {
        match answers[0] {
          case Data(b) => tbuf := b;
          case WouldBlock =>
          case Failed(code) => errno := Other(code);
        }
        answers := answers[1..];
      }
      if tbuf != [] {
        nread := |tbuf|;
        errorCount := 0;
        readCount := readCount + nread;
      } else {
        if errno == Again {
          errorCount := errorCount + 1;
          if errorCount > MAX_EMPTY {
            errno := NetworkError;
          }
        }
        error := errno;
      }
    }

    /** One turn of the loop of `kStream_fpeek`. */
    method ReadMore() returns (ok: bool)
      requires Valid()
      modifies this`answers, this`error, this`errorCount, this`readCount, ibuf, ibuf.buf
      ensures Valid() && (ibuf.buf == old(ibuf.buf) || fresh(ibuf.buf))
      ensures var s := old(Incoming());
              var (b, r) := Received(s);
              ok == (b != []) && Incoming() == if ok then r.(buf := s.buf + b) else r
    {
      ghost var s := Incoming();
      ReceivedIs(s);
      hide Received;
      var nread, tbuf := Read();
      ok := nread >= 0;
      if ok {
        ibuf.Cat(tbuf);
      }
    }

    /** The next `size` bytes, left in place, or -1 with what there is kept for
        later. */
    method Fpeek(size: nat) returns (n: int, buf: bytes)
      requires Valid()
      modifies this`answers, this`error, this`errorCount, this`readCount, ibuf, ibuf.buf
      ensures Valid() && (ibuf.buf == old(ibuf.buf) || fresh(ibuf.buf))
      ensures (n >= 0, Incoming()) == Peeked(old(Incoming()), size)
      ensures if n >= 0 then n == size <= |Incoming().buf| && buf == Incoming().buf[..size] else n == -1 && buf == []
    {
      while ibuf.cpos < size
        invariant Valid() && (ibuf.buf == old(ibuf.buf) || fresh(ibuf.buf))
        invariant Peeked(Incoming(), size) == Peeked(old(Incoming()), size)
        decreases |answers|
      {
        ReceivedIs(Incoming());
        hide Received;
        var ok := ReadMore();
        if !ok {
          return -1, [];
        }
      }
      n, buf := size, ibuf.buf[..size];
    }

    /** As the peek, and the bytes are taken off. */
    method Fread(size: nat) returns (n: int, buf: bytes)
      requires Valid() && size > 0
      modifies this`answers, this`error, this`errorCount, this`readCount, ibuf, ibuf.buf
      ensures Valid() && (ibuf.buf == old(ibuf.buf) || fresh(ibuf.buf))
      ensures var (ok, p) := Peeked(old(Incoming()), size);
              && ok == (n >= 0) && (ok ==> |p.buf| >= size)
              && Incoming() == (if ok then p.(buf := p.buf[size..]) else p)
              && (if ok then n == size && buf == p.buf[..size] else n == -1 && buf == [])
    {
      hide Peeked;
      n, buf := Fpeek(size);
      if n > 0 {
        ibuf.Tail(size);
      }
    }

    /** Offers all that is queued to `write`, which answers `w`. */
    method Flush(w: Wrote) returns (res: int)
      requires Valid() && Kept() && CanTake(w, |Outgoing().queue|)
      modifies this`error, this`writeCount, this`written, obuf`cpos, obuf.buf
      ensures Valid() && Kept()
      ensures (Outgoing(), res) == Flushed(old(Outgoing()), w)
      ensures written == old(written) + old(Outgoing().queue)[..Count(w)]
    {
      var nwrite := Write(w);
      if nwrite > 0 {
        Drop(nwrite);
      }
      res := if nwrite <= 0 && error != Again then -1 else obuf.cpos;
    }

    /** `kStream_write`: one `write` of all that is queued. */
    method Write(w: Wrote) returns (nwrite: int)
      requires Valid() && CanTake(w, |Outgoing().queue|)
      modifies this`error
      ensures Valid()
      ensures nwrite == if w.Took? then w.n else -1
      ensures Outgoing() == old(Outgoing()).(error := Flushed(old(Outgoing()), w).0.error)
    {
      match w {
        case Took(n) =>
          if n < obuf.cpos {
            error := Again;
          }
          nwrite := n;
        case WriteBlocked => error, nwrite := Again, -1;
        case WriteFailed(code) => error, nwrite := Other(code), -1;
      }
    }

    /** Takes the bytes written off the queue. */
    method Drop(n: nat)
      requires Valid() && Kept() && n <= |Outgoing().queue|
      modifies this`writeCount, this`written, obuf`cpos, obuf.buf
      ensures Valid() && Kept()
      ensures var o := old(Outgoing()); Outgoing() == o.(queue := o.queue[n..]) && written == old(written) + o.queue[..n]
    {
      ghost var q := Outgoing().queue;
      assert q == q[..n] + q[n..];
      assert written + (q[..n] + q[n..]) == written + q[..n] + q[n..];
      obuf.Tail(n);
      writeCount := writeCount + n;
      written := written + q[..n];
    }

    /** `kStream_fwrite`: queues and flushes. */
    method Fwrite(data: bytes, w: Wrote) returns (res: int)
      requires Valid() && Kept() && CanTake(w, |Outgoing().queue| + |data|)
      modifies this`error, this`writeCount, this`written, this`given, obuf, obuf.buf
      ensures Valid() && Kept() && (obuf.buf == old(obuf.buf) || fresh(obuf.buf))
      ensures given == old(given) + data
      ensures var o := old(Outgoing()).(queue := old(Outgoing()).queue + data);
              && (Outgoing(), res) == Flushed(o, w)
              && written == old(written) + o.queue[..Count(w)]
    {
      hide Flushed;
      Enqueue(data);
      res := Flush(w);
    }

    method Enqueue(data: bytes)
      requires Valid() && Kept()
      modifies this`given, obuf, obuf.buf
      ensures Valid() && Kept() && (obuf.buf == old(obuf.buf) || fresh(obuf.buf))
      ensures given == old(given) + data
      ensures var o := old(Outgoing()); Outgoing() == o.(queue := o.queue + data)
    {
      ghost var q := Outgoing().queue;
      assert written + (q + data) == written + q + data;
      obuf.Cat(data);
      given := given + data;
    }
  }
}
