/** The 200-byte restore-preparation manifest: one encoding for each valid field set, and no other
    byte string accepted. Source: server/src/restore_manifest.rs. */
module RestoreManifest {
  import opened Wrappers
  import opened Bytes
  import opened FixedLayout
  import opened Wire

  const MAGIC: Bytes := [0x53, 0x48, 0x41, 0x52, 0x44, 0x58, 0x52, 0x50]
  const VERSION: nat := 2
  const LEN: nat := 200
  const BODY: nat := 168

  datatype ManifestError = Length | Magic | Version | LengthField | BadState | Reserved | Checksum | ZeroField | Epoch | Range

  datatype State = Prepared | Terminal
  datatype Manifest = Manifest(state: State, instance: Bytes, previousEpoch: nat, newEpoch: nat, txn: Bytes,
                               candidateDb: Bytes, transitionSet: Bytes, previousRecord: Bytes, preparedAt: nat)

  /** The field sizes the source's types fix. */
  predicate Typed(m: Manifest) {
    && |m.instance| == |m.txn| == 16 && |m.candidateDb| == |m.transitionSet| == |m.previousRecord| == 32
    && m.previousEpoch < Span(8) && m.newEpoch < Span(8) && m.preparedAt < Span(8)
  }

  /** What a valid manifest is: the field rules, on the manifest itself. */
  predicate Valid(m: Manifest) {
    && !Zero(m.instance) && !Zero(m.txn) && !Zero(m.candidateDb) && !Zero(m.transitionSet) && !Zero(m.previousRecord)
    && m.newEpoch <= MAX_WIRE_INT && m.preparedAt <= MAX_WIRE_INT && m.previousEpoch + 1 == m.newEpoch
  }

  function StateByte(s: State): Byte { if s == Prepared then 1 else 2 }

  function Fields(m: Manifest): seq<Bytes> {
    [MAGIC, ToBE(VERSION, 2), ToBE(LEN, 2), [StateByte(m.state)], Zeros(3), m.instance, ToBE(m.previousEpoch, 8),
     ToBE(m.newEpoch, 8), m.txn, m.candidateDb, m.transitionSet, m.previousRecord, ToBE(m.preparedAt, 8)]
  }

  function Layout(m: Manifest, sum: Sum): Bytes { Join(Fields(m)) + sum(Join(Fields(m))) }

  function Parse(b: Bytes, sum: Sum): Result<Manifest, ManifestError> {
    if |b| != LEN then Err(Length)
    else if b[0..8] != MAGIC then Err(Magic)
    else if FromBE(b[8..10]) != VERSION then Err(Version)
    else if FromBE(b[10..12]) != LEN then Err(LengthField)
    else if b[12] != 1 && b[12] != 2 then Err(BadState)
    else if !Zero(b[13..16]) then Err(Reserved)
    else if sum(b[..BODY]) != b[BODY..] then Err(Checksum)
    else ParseFields(b)
  }

  function ParseFields(b: Bytes): Result<Manifest, ManifestError>
    requires |b| == LEN
  {
    var m := Manifest(if b[12] == 1 then Prepared else Terminal, b[16..32], FromBE(b[32..40]), FromBE(b[40..48]), b[48..64],
                      b[64..96], b[96..128], b[128..160], FromBE(b[160..168]));
    if Zero(m.instance) || Zero(m.txn) || Zero(m.candidateDb) || Zero(m.transitionSet) || Zero(m.previousRecord) then Err(ZeroField)
    else if m.newEpoch > MAX_WIRE_INT || m.preparedAt > MAX_WIRE_INT then Err(Range)
    else if m.previousEpoch + 1 != m.newEpoch then Err(Epoch)
    else Ok(m)
  }

  lemma Starts(m: Manifest)
    requires Typed(m)
    ensures var f := Fields(m);
            && |f| == 13 && Start(f, 0) == 0 && Start(f, 1) == 8 && Start(f, 2) == 10 && Start(f, 3) == 12 && Start(f, 4) == 13
            && Start(f, 5) == 16 && Start(f, 6) == 32 && Start(f, 7) == 40 && Start(f, 8) == 48 && Start(f, 9) == 64
            && Start(f, 10) == 96 && Start(f, 11) == 128 && Start(f, 12) == 160 && Start(f, 13) == 168
  {
    hide ToBE, Zeros, Zero;
    var f := Fields(m);
    assert Start(f, 1) == 8;
    assert Start(f, 2) == 10;
    assert Start(f, 3) == 12;
    assert Start(f, 4) == 13;
    assert Start(f, 5) == 16;
    assert Start(f, 6) == 32;
    assert Start(f, 7) == 40;
    assert Start(f, 8) == 48;
    assert Start(f, 9) == 64;
    assert Start(f, 10) == 96;
    assert Start(f, 11) == 128;
    assert Start(f, 12) == 160;
  }

  lemma BodyLength(m: Manifest)
    requires Typed(m)
    ensures |Join(Fields(m))| == BODY
  {
    Starts(m);
    JoinLength(Fields(m), 13);
    assert Fields(m)[..13] == Fields(m);
  }

  lemma LayoutAt(m: Manifest, sum: Sum, i: nat)
    requires Typed(m) && Is32(sum) && i < 13
    ensures |Layout(m, sum)| == LEN && Layout(m, sum)[..BODY] == Join(Fields(m)) && Layout(m, sum)[BODY..] == sum(Join(Fields(m)))
    ensures |Fields(m)| == 13 && 0 <= Start(Fields(m), i) <= Start(Fields(m), i + 1) <= BODY
    ensures Layout(m, sum)[Start(Fields(m), i)..Start(Fields(m), i + 1)] == Fields(m)[i]
  {
    hide Start, ToBE, Zeros, Join;
    BodyLength(m);
    FieldAt(Fields(m), i);
    StartsGrow(Fields(m), i, i + 1);
    var body := Join(Fields(m));
    assert Layout(m, sum)[..BODY] == body;
    assert Layout(m, sum)[Start(Fields(m), i)..Start(Fields(m), i + 1)] == body[Start(Fields(m), i)..Start(Fields(m), i + 1)];
  }

  lemma HeaderReadsBack(m: Manifest, sum: Sum)
    requires Typed(m) && Is32(sum)
    ensures |Layout(m, sum)| == LEN && Parse(Layout(m, sum), sum) == ParseFields(Layout(m, sum))
    ensures Layout(m, sum)[12] == StateByte(m.state)
  {
    hide ParseFields, Layout, Join;
    Starts(m);
    Spans();
    var b := Layout(m, sum);
    LayoutAt(m, sum, 0);
    LayoutAt(m, sum, 1);
    LayoutAt(m, sum, 2);
    LayoutAt(m, sum, 3);
    LayoutAt(m, sum, 4);
    ReadsBack(VERSION, 2);
    ReadsBack(LEN, 2);
    assert b[12..13][0] == b[12];
  }

  lemma FieldsReadBack(m: Manifest, sum: Sum)
    requires Typed(m) && Is32(sum) && |Layout(m, sum)| == LEN && Layout(m, sum)[12] == StateByte(m.state)
    ensures ParseFields(Layout(m, sum)).Ok? <==> Valid(m)
    ensures Valid(m) ==> ParseFields(Layout(m, sum)) == Ok(m)
  {
    hide Layout, Join, ToBE;
    Starts(m);
    LayoutAt(m, sum, 5);
    LayoutAt(m, sum, 6);
    LayoutAt(m, sum, 7);
    LayoutAt(m, sum, 8);
    LayoutAt(m, sum, 9);
    LayoutAt(m, sum, 10);
    LayoutAt(m, sum, 11);
    LayoutAt(m, sum, 12);
    ReadsBack(m.previousEpoch, 8);
    ReadsBack(m.newEpoch, 8);
    ReadsBack(m.preparedAt, 8);
  }

  /** `encode`: the layout, unless the parser would refuse it. */
  function Encode(m: Manifest, sum: Sum): Result<Bytes, ManifestError> {
    var parsed := Parse(Layout(m, sum), sum);
    if parsed.Err? then Err(parsed.error) else Ok(Layout(m, sum))
  }

  /** Encoding refuses exactly the invalid field values, and what it gives parses to the manifest. */
  lemma ParseUndoesEncode(m: Manifest, sum: Sum)
    requires Typed(m) && Is32(sum)
    ensures Encode(m, sum).Ok? <==> Valid(m)
    ensures Encode(m, sum).Ok? ==> |Encode(m, sum).value| == LEN && Parse(Encode(m, sum).value, sum) == Ok(m)
  {
    hide Layout, Parse, ParseFields, Valid, Typed;
    HeaderReadsBack(m, sum);
    FieldsReadBack(m, sum);
  }

  lemma HeaderHolds(b: Bytes, m: Manifest)
    requires Typed(m) && |b| == LEN && b[0..8] == MAGIC && FromBE(b[8..10]) == VERSION && FromBE(b[10..12]) == LEN
    requires b[12] == StateByte(m.state) && Zero(b[13..16])
    ensures |Fields(m)| == 13 && forall i: nat | i < 5 :: Holds(b, Fields(m), i)
  {
    hide ToBE, FromBE, Zeros;
    Starts(m);
    WritesBack(b[8..10]);
    WritesBack(b[10..12]);
    ZeroIsZeros(b[13..16]);
    var f := Fields(m);
    assert Holds(b, f, 0) && Holds(b, f, 1) && Holds(b, f, 2) && Holds(b, f, 3) && Holds(b, f, 4);
  }

  lemma BodyHolds(b: Bytes, m: Manifest)
    requires |b| == LEN && Typed(m)
    requires m == Manifest(m.state, b[16..32], FromBE(b[32..40]), FromBE(b[40..48]), b[48..64],
                           b[64..96], b[96..128], b[128..160], FromBE(b[160..168]))
    ensures |Fields(m)| == 13 && forall i: nat | 5 <= i < 13 :: Holds(b, Fields(m), i)
  {
    hide ToBE, FromBE, Zeros;
    Starts(m);
    WritesBack(b[32..40]);
    WritesBack(b[40..48]);
    WritesBack(b[160..168]);
    var f := Fields(m);
    assert Holds(b, f, 5) && Holds(b, f, 6) && Holds(b, f, 7) && Holds(b, f, 8);
    assert Holds(b, f, 9) && Holds(b, f, 10) && Holds(b, f, 11) && Holds(b, f, 12);
  }

  lemma ParsedIsLayout(b: Bytes, sum: Sum)
    requires Is32(sum) && Parse(b, sum).Ok?
    ensures Typed(Parse(b, sum).value) && Valid(Parse(b, sum).value) && b == Layout(Parse(b, sum).value, sum)
  {
    hide Join, Holds, ToBE, FromBE, Fields;
    var m := Parse(b, sum).value;
    Spans();
    HeaderHolds(b, m);
    BodyHolds(b, m);
    IsJoin(b, Fields(m), 13);
    Starts(m);
    assert Fields(m)[..13] == Fields(m);
    Extend(b, BODY, LEN);
    assert b[..LEN] == b;
  }

  /** A byte string that parses is the one encoding of what it parses to. */
  lemma EncodeUndoesParse(b: Bytes, sum: Sum)
    requires Is32(sum) && Parse(b, sum).Ok?
    ensures Typed(Parse(b, sum).value) && Valid(Parse(b, sum).value) && Encode(Parse(b, sum).value, sum) == Ok(b)
  {
    hide Layout;
    ParsedIsLayout(b, sum);
    ParseUndoesEncode(Parse(b, sum).value, sum);
  }

  /** `encode` as the code fills its array. */
  method EncodeInPlace(m: Manifest, sum: Sum) returns (bytes: Result<array<Byte>, ManifestError>)
    requires Typed(m) && Is32(sum)
    ensures Encode(m, sum) == if bytes.Ok? then Ok(bytes.value[..]) else Err(bytes.error)
    ensures bytes.Ok? <==> Valid(m)
  {
    var out := new Byte[LEN](_ => 0);
    FillHeader(out, m);
    FillFields(out, m);
    BodyLength(m);
    var checksum := sum(out[..BODY]);
    forall i | 0 <= i < 32 {
      out[BODY + i] := checksum[i];
    }
    assert out[..] == out[..BODY] + out[BODY..];
    assert out[BODY..] == checksum;
    assert out[..] == Layout(m, sum);
    ParseUndoesEncode(m, sum);
    hide Parse, Layout;
    var parsed := Parse(out[..], sum);
    if parsed.Err? {
      return Err(parsed.error);
    }
    return Ok(out);
  }

  method FillHeader(out: array<Byte>, m: Manifest)
    requires Typed(m) && out.Length == LEN && Zero(out[..])
    modifies out
    ensures out[..16] == Join(Fields(m)[..5])
  {
    hide Join, ToBE;
    ghost var f := Fields(m);
    NothingJoined(f);
    Put(out, 0, MAGIC, f, 0);
    Put(out, 8, ToBE(VERSION, 2), f, 1);
    Put(out, 10, ToBE(LEN, 2), f, 2);
    Put(out, 12, [StateByte(m.state)], f, 3);
    assert Zero(out[13..16]);
    ZeroIsZeros(out[13..16]);
    Skip(out, 13, f, 4);
  }

  method FillFields(out: array<Byte>, m: Manifest)
    requires Typed(m) && out.Length == LEN && out[..16] == Join(Fields(m)[..5])
    modifies out
    ensures out[..BODY] == Join(Fields(m))
  {
    hide Join, ToBE, Zeros;
    ghost var f := Fields(m);
    Put(out, 16, m.instance, f, 5);
    Put(out, 32, ToBE(m.previousEpoch, 8), f, 6);
    Put(out, 40, ToBE(m.newEpoch, 8), f, 7);
    Put(out, 48, m.txn, f, 8);
    Put(out, 64, m.candidateDb, f, 9);
    Put(out, 96, m.transitionSet, f, 10);
    Put(out, 128, m.previousRecord, f, 11);
    Put(out, 160, ToBE(m.preparedAt, 8), f, 12);
    assert f[..13] == f;
  }
}
