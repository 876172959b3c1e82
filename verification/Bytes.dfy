/** Byte strings and big-endian integers, as `to_be_bytes` and `from_be_bytes` write and read them. */
module Bytes {
  type Byte = b: int | 0 <= b < 256
  type Bytes = seq<Byte>

  /** The number of values of `width` bytes. */
  function Span(width: nat): (n: nat)
    ensures n > 0
  {
    if width == 0 then 1 else Span(width - 1) * 256
  }

  /** The low `width` bytes of `n`, most significant first: the truncating cast is part of it. */
  function ToBE(n: nat, width: nat): (b: Bytes)
    ensures |b| == width
  {
    if width == 0 then [] else ToBE(n / 256, width - 1) + [n % 256]
  }

  function FromBE(b: Bytes): (n: nat)
    ensures n < Span(|b|)
  {
    if b == [] then 0 else FromBE(b[..|b| - 1]) * 256 + b[|b| - 1]
  }

  lemma {:induction false} ReadsBack(n: nat, width: nat)
    requires n < Span(width)
    ensures FromBE(ToBE(n, width)) == n
  {
    if width > 0 {
      ReadsBack(n / 256, width - 1);
      assert ToBE(n, width)[..width - 1] == ToBE(n / 256, width - 1);
    }
  }

  lemma {:induction false} WritesBack(b: Bytes)
    ensures ToBE(FromBE(b), |b|) == b
  {
    if b != [] {
      var n := |b| - 1;
      WritesBack(b[..n]);
      assert FromBE(b) / 256 == FromBE(b[..n]) && FromBE(b) % 256 == b[n];
      assert b == b[..n] + [b[n]];
    }
  }

  lemma Spans()
    ensures Span(1) == 0x100 && Span(2) == 0x1_0000 && Span(4) == 0x1_0000_0000 && Span(8) == 0x1_0000_0000_0000_0000
  {
    assert Span(3) == 0x100_0000;
    assert Span(5) == 0x100_0000_0000;
    assert Span(6) == 0x1_0000_0000_0000;
    assert Span(7) == 0x100_0000_0000_0000;
  }
}
