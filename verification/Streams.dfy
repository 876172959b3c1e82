/** An input whose reads may be short by any amount, and an output that only grows. */
module Streams {
  import opened Wrappers
  import opened Bytes

  class Reader {
    var rest: Bytes

    constructor (bytes: Bytes)
      ensures rest == bytes
    {
      rest := bytes;
    }

    /** One read of any size; it returns 0 only at the end. */
    method Read(buf: array<Byte>, at: nat) returns (n: nat)
      requires at < buf.Length
      modifies this, buf
      ensures n <= |old(rest)| && at + n <= buf.Length && (n == 0 <==> old(rest) == [])
      ensures rest == old(rest)[n..]
      ensures buf[..at] == old(buf[..at]) && buf[at..at + n] == old(rest)[..n]
    {
      if rest == [] {
        return 0;
      }
      n :| 0 < n <= |rest| && at + n <= buf.Length;
      forall i | 0 <= i < n {
        buf[at + i] := rest[i];
      }
      rest := rest[n..];
    }

    method ReadExact(n: nat) returns (r: Option<Bytes>)
      modifies this
      ensures r.Some? <==> n <= |old(rest)|
      ensures r.Some? ==> r.value == old(rest)[..n] && rest == old(rest)[n..]
    {
      var buf := new Byte[n];
      var filled := 0;
      while filled < n
        invariant filled <= n && filled <= |old(rest)|
        invariant buf[..filled] == old(rest)[..filled] && rest == old(rest)[filled..]
      {
        var got := Read(buf, filled);
        if got == 0 {
          return None;
        }
        assert buf[..filled + got] == buf[..filled] + buf[filled..filled + got];
        filled := filled + got;
      }
      return Some(buf[..]);
    }
  }

  class Sink {
    var written: Bytes

    constructor ()
      ensures written == []
    {
      written := [];
    }

    method WriteAll(b: Bytes)
      modifies this
      ensures written == old(written) + b
    {
      written := written + b;
    }
  }

  /** Fill the buffer; short only at the end of the input. */
  method Fill(input: Reader, buf: array<Byte>) returns (filled: nat, eof: bool)
    modifies input, buf
    ensures filled == if buf.Length <= |old(input.rest)| then buf.Length else |old(input.rest)|
    ensures buf[..filled] == old(input.rest)[..filled] && input.rest == old(input.rest)[filled..]
    ensures eof <==> filled < buf.Length
  {
    filled, eof := 0, false;
    while filled < buf.Length
      invariant filled <= buf.Length && filled <= |old(input.rest)| && !eof
      invariant buf[..filled] == old(input.rest)[..filled] && input.rest == old(input.rest)[filled..]
    {
      var n := input.Read(buf, filled);
      if n == 0 {
        eof := true;
        break;
      }
      assert buf[..filled + n] == buf[..filled] + buf[filled..filled + n];
      filled := filled + n;
    }
  }
}
