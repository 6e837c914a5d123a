/** The growing byte buffer. */
module StrBuf {

  type byte = x: int | 0 <= x < 256

  class StringBuffer {
    var buf: array<byte>
    var cpos: nat

    /** Room is kept for a NUL after the contents, once there is any room. */
    ghost predicate Valid()
      reads this
    {
      cpos < buf.Length || (cpos == 0 && buf.Length == 0)
    }

    ghost function Contents(): (s: seq<byte>)
      reads this, buf
      requires Valid()
    {
      buf[..cpos]
    }

    constructor ()
      ensures Valid() && Contents() == [] && fresh(buf)
    {
      buf, cpos := new byte[0], 0;
    }

    method Grow(len: nat)
      requires cpos <= buf.Length
      modifies this`buf
      ensures fresh(buf) && buf.Length == old(buf.Length) + len
      ensures buf[..cpos] == old(buf[..cpos])
    {
      var bigger := new byte[buf.Length + len];
      for i := 0 to cpos
        invariant buf == old(buf) && fresh(bigger) && bigger[..i] == old(buf[..cpos])[..i]
      {
        bigger[i] := buf[i];
      }
      buf := bigger;
    }

    /** Appends a string. */
    method Cat(str: seq<byte>)
      requires Valid()
      modifies this, buf
      ensures Valid() && Contents() == old(Contents()) + str
      ensures buf == old(buf) || fresh(buf)
    {
      if cpos + |str| >= buf.Length {
        Grow(if |str| + 1 > 1024 then |str| + 1 else 1024);
      }
      Copy(str);
      cpos := cpos + |str|;
      buf[cpos] := 0;
    }

    method Copy(str: seq<byte>)
      requires cpos + |str| < buf.Length
      modifies buf
      ensures buf[..cpos + |str|] == old(buf[..cpos]) + str
    {
      for i := 0 to |str|
        invariant buf[..cpos + i] == old(buf[..cpos]) + str[..i]
      {
        buf[cpos + i] := str[i];
        assert buf[..cpos + i + 1] == buf[..cpos + i] + [str[i]];
      }
    }

    /** Drops the first `start` bytes, moving the rest down over them. */
    method Tail(start: nat)
      requires Valid() && start <= cpos
      modifies this`cpos, buf
      ensures Valid() && Contents() == old(Contents())[start..]
    {
      if start == 0 {
        return;
      }
      ghost var before := Contents();
      ghost var n := cpos;
      for i := 0 to cpos - start
        invariant cpos == n && n < buf.Length
        invariant buf[..i] == before[start..start + i] && buf[start + i..cpos] == before[start + i..]
      {
        assert buf[start + i] == buf[start + i..cpos][0];
        buf[i] := buf[start + i];
        assert buf[..i + 1] == buf[..i] + [before[start + i]];
      }
      cpos := cpos - start;
      buf[cpos] := 0;
    }
  }
}
