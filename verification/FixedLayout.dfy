/** A byte string laid out as consecutive fields, and the array an encoder fills with them. */
module FixedLayout {
  import opened Bytes
  import opened Seqs

  predicate Zero(b: Bytes) { forall i | 0 <= i < |b| :: b[i] == 0 }

  function Zeros(n: nat): (b: Bytes)
    ensures |b| == n && Zero(b)
  {
    seq(n, _ => 0)
  }

  lemma ZeroIsZeros(b: Bytes)
    requires Zero(b)
    ensures b == Zeros(|b|)
  {
  }

  lemma {:induction false} ZerosAreZero(n: nat)
    ensures ToBE(0, n) == Zeros(n)
  {
    if n > 0 {
      ZerosAreZero(n - 1);
      assert Zeros(n) == Zeros(n - 1) + [0];
    }
  }

  type Sum = Bytes -> Bytes

  /** The checksum is any function to 32 bytes. */
  ghost predicate Is32(sum: Sum) { forall b :: |sum(b)| == 32 }

  function Join(fields: seq<Bytes>): Bytes {
    if fields == [] then [] else Join(fields[..|fields| - 1]) + fields[|fields| - 1]
  }

  /** Where field `i` starts. */
  function Start(fields: seq<Bytes>, i: nat): nat
    requires i <= |fields|
  {
    if i == 0 then 0 else Start(fields, i - 1) + |fields[i - 1]|
  }

  lemma NothingJoined(f: seq<Bytes>)
    ensures Join(f[..0]) == []
  {
  }

  lemma JoinMore(fields: seq<Bytes>, k: nat)
    requires k < |fields|
    ensures Join(fields[..k + 1]) == Join(fields[..k]) + fields[k]
  {
    assert fields[..k + 1][..k] == fields[..k];
  }

  lemma {:induction false} JoinLength(fields: seq<Bytes>, k: nat)
    requires k <= |fields|
    ensures |Join(fields[..k])| == Start(fields, k)
  {
    if k > 0 {
      JoinLength(fields, k - 1);
      JoinMore(fields, k - 1);
    }
  }

  lemma {:induction false} StartsGrow(fields: seq<Bytes>, i: nat, j: nat)
    requires i <= j <= |fields|
    ensures Start(fields, i) <= Start(fields, j)
  {
    if i < j {
      StartsGrow(fields, i, j - 1);
    }
  }

  lemma {:induction false} JoinSlice(fields: seq<Bytes>, i: nat, n: nat)
    requires i < n <= |fields|
    ensures Start(fields, i + 1) <= |Join(fields[..n])|
    ensures Join(fields[..n])[Start(fields, i)..Start(fields, i + 1)] == fields[i]
  {
    JoinLength(fields, n - 1);
    JoinMore(fields, n - 1);
    if i < n - 1 {
      JoinSlice(fields, i, n - 1);
      StartsGrow(fields, i + 1, n - 1);
      var a, b := Join(fields[..n - 1]), fields[n - 1];
      assert (a + b)[Start(fields, i)..Start(fields, i + 1)] == a[Start(fields, i)..Start(fields, i + 1)];
    }
  }

  /** Field `i` is where the layout says. */
  lemma FieldAt(fields: seq<Bytes>, i: nat)
    requires i < |fields|
    ensures Start(fields, i + 1) <= |Join(fields)|
    ensures Join(fields)[Start(fields, i)..Start(fields, i + 1)] == fields[i]
  {
    JoinSlice(fields, i, |fields|);
    assert fields[..|fields|] == fields;
  }

  predicate Holds(b: Bytes, fields: seq<Bytes>, i: nat)
    requires i < |fields|
  {
    Start(fields, i) <= Start(fields, i + 1) <= |b| && b[Start(fields, i)..Start(fields, i + 1)] == fields[i]
  }

  /** A byte string with every field where the layout says is those fields and nothing more. */
  lemma {:induction false} IsJoin(b: Bytes, fields: seq<Bytes>, k: nat)
    requires k <= |fields| && forall i: nat | i < k :: Holds(b, fields, i)
    ensures Start(fields, k) <= |b| && b[..Start(fields, k)] == Join(fields[..k])
  {
    if k == 0 {
      assert b[..0] == [] && fields[..0] == [];
    } else {
      hide Join;
      IsJoin(b, fields, k - 1);
      JoinMore(fields, k - 1);
      assert Holds(b, fields, k - 1);
      Extend(b, Start(fields, k - 1), Start(fields, k));
    }
  }

  lemma Extend(b: Bytes, i: nat, j: nat)
    requires i <= j <= |b|
    ensures b[..j] == b[..i] + b[i..j]
  {
  }

  /** `copy_from_slice` of the next field. */
  method Put(out: array<Byte>, at: nat, field: Bytes, ghost fields: seq<Bytes>, ghost k: nat)
    requires k < |fields| && field == fields[k] && at + |field| <= out.Length && out[..at] == Join(fields[..k])
    modifies out
    ensures out[..at + |field|] == Join(fields[..k + 1])
    ensures forall i | at + |field| <= i < out.Length :: out[i] == old(out[i])
  {
    forall i | 0 <= i < |field| {
      out[at + i] := field[i];
    }
    JoinMore(fields, k);
    assert out[..at + |field|] == out[..at] + field;
  }

  /** A field that is already there. */
  lemma Skip(out: array<Byte>, at: nat, fields: seq<Bytes>, k: nat)
    requires k < |fields| && at + |fields[k]| <= out.Length && out[..at] == Join(fields[..k])
    requires out[at..at + |fields[k]|] == fields[k]
    ensures out[..at + |fields[k]|] == Join(fields[..k + 1])
  {
    JoinMore(fields, k);
    assert out[..at + |fields[k]|] == out[..at] + fields[k];
  }
}
