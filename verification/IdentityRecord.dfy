/** The 168-byte identity record: one encoding for each valid field set, and no other byte string
    accepted. Source: server/src/identity_record.rs. */
module IdentityRecord {
  import opened Wrappers
  import opened Bytes
  import opened FixedLayout
  import opened Wire

  const MAGIC: Bytes := [0x53, 0x48, 0x41, 0x52, 0x44, 0x58, 0x49, 0x44]
  const VERSION: nat := 2
  const LEN: nat := 168
  const BODY: nat := 136

  datatype Corrupt =
    | Length | Magic | Version | LengthField | Reserved | Checksum
    | InstanceNil | Range | GenesisFields | PreviousEpoch | RestoreFieldsZero

  datatype Record = Record(instance: Bytes, epoch: nat, txn: Bytes, restoredDb: Bytes, transitionSet: Bytes, writtenAt: nat)

  /** The field sizes the source's types fix. */
  predicate Typed(r: Record) {
    && |r.instance| == |r.txn| == 16 && |r.restoredDb| == |r.transitionSet| == 32
    && r.epoch < Span(8) && r.writtenAt < Span(8)
  }

  /** The epoch before, 0 at genesis. */
  function Previous(epoch: nat): nat { if epoch == 0 then 0 else epoch - 1 }

  /** What a valid record is: the field rules, on the record itself. */
  predicate Valid(r: Record) {
    && !Zero(r.instance) && r.epoch <= MAX_WIRE_INT && r.writtenAt <= MAX_WIRE_INT
    && (if r.epoch == 0 then Zero(r.txn) && Zero(r.restoredDb) && Zero(r.transitionSet)
        else !Zero(r.txn) && !Zero(r.restoredDb) && !Zero(r.transitionSet))
  }

  function Fields(r: Record): seq<Bytes> {
    [MAGIC, ToBE(VERSION, 2), ToBE(LEN, 2), Zeros(4), r.instance, ToBE(Previous(r.epoch), 8), ToBE(r.epoch, 8),
     r.txn, r.restoredDb, r.transitionSet, ToBE(r.writtenAt, 8)]
  }

  function Layout(r: Record, sum: Sum): Bytes { Join(Fields(r)) + sum(Join(Fields(r))) }

  /** The parser, rule after rule. */
  function Parse(b: Bytes, sum: Sum): Result<Record, Corrupt> {
    if |b| != LEN then Err(Length)
    else if b[0..8] != MAGIC then Err(Magic)
    else if FromBE(b[8..10]) != VERSION then Err(Version)
    else if FromBE(b[10..12]) != LEN then Err(LengthField)
    else if FromBE(b[12..16]) != 0 then Err(Reserved)
    else if sum(b[..BODY]) != b[BODY..] then Err(Checksum)
    else ParseFields(b)
  }

  function ParseFields(b: Bytes): Result<Record, Corrupt>
    requires |b| == LEN
  {
    var r := Record(b[16..32], FromBE(b[40..48]), b[48..64], b[64..96], b[96..128], FromBE(b[128..136]));
    var previous := FromBE(b[32..40]);
    if Zero(r.instance) then Err(InstanceNil)
    else if r.epoch > MAX_WIRE_INT || previous > MAX_WIRE_INT || r.writtenAt > MAX_WIRE_INT then Err(Range)
    else if r.epoch == 0 then
      if previous != 0 || !(Zero(r.txn) && Zero(r.restoredDb) && Zero(r.transitionSet)) then Err(GenesisFields) else Ok(r)
    else if previous != r.epoch - 1 then Err(PreviousEpoch)
    else if Zero(r.txn) || Zero(r.restoredDb) || Zero(r.transitionSet) then Err(RestoreFieldsZero)
    else Ok(r)
  }

  lemma Starts(r: Record)
    requires Typed(r)
    ensures var f := Fields(r);
            && Start(f, 0) == 0 && Start(f, 1) == 8 && Start(f, 2) == 10 && Start(f, 3) == 12 && Start(f, 4) == 16
            && Start(f, 5) == 32 && Start(f, 6) == 40 && Start(f, 7) == 48 && Start(f, 8) == 64 && Start(f, 9) == 96
            && Start(f, 10) == 128 && Start(f, 11) == 136
  {
    hide ToBE, Zeros, Zero;
    var f := Fields(r);
    assert Start(f, 1) == 8;
    assert Start(f, 2) == 10;
    assert Start(f, 3) == 12;
    assert Start(f, 4) == 16;
    assert Start(f, 5) == 32;
    assert Start(f, 6) == 40;
    assert Start(f, 7) == 48;
    assert Start(f, 8) == 64;
    assert Start(f, 9) == 96;
    assert Start(f, 10) == 128;
  }

  lemma BodyLength(r: Record)
    requires Typed(r)
    ensures |Join(Fields(r))| == BODY
  {
    Starts(r);
    JoinLength(Fields(r), 11);
    assert Fields(r)[..11] == Fields(r);
  }

  /** Every field of an encoded record is at its offset. */
  lemma LayoutAt(r: Record, sum: Sum, i: nat)
    requires Typed(r) && Is32(sum) && i < 11
    ensures |Layout(r, sum)| == LEN && Layout(r, sum)[..BODY] == Join(Fields(r)) && Layout(r, sum)[BODY..] == sum(Join(Fields(r)))
    ensures 0 <= Start(Fields(r), i) <= Start(Fields(r), i + 1) <= BODY
    ensures Layout(r, sum)[Start(Fields(r), i)..Start(Fields(r), i + 1)] == Fields(r)[i]
  {
    hide Start, ToBE, Zeros, Join;
    BodyLength(r);
    FieldAt(Fields(r), i);
    StartsGrow(Fields(r), i, i + 1);
    var body := Join(Fields(r));
    assert Layout(r, sum)[..BODY] == body;
    assert Layout(r, sum)[Start(Fields(r), i)..Start(Fields(r), i + 1)] == body[Start(Fields(r), i)..Start(Fields(r), i + 1)];
  }

  lemma HeaderReadsBack(r: Record, sum: Sum)
    requires Typed(r) && Is32(sum)
    ensures |Layout(r, sum)| == LEN && Parse(Layout(r, sum), sum) == ParseFields(Layout(r, sum))
  {
    hide ParseFields, Layout, Join;
    Starts(r);
    Spans();
    var b := Layout(r, sum);
    LayoutAt(r, sum, 0);
    LayoutAt(r, sum, 1);
    LayoutAt(r, sum, 2);
    LayoutAt(r, sum, 3);
    ReadsBack(VERSION, 2);
    ReadsBack(LEN, 2);
    ReadsBack(0, 4);
    assert Zeros(4) == ToBE(0, 4) by { ZerosAreZero(4); }
  }

  lemma FieldsReadBack(r: Record, sum: Sum)
    requires Typed(r) && Is32(sum) && |Layout(r, sum)| == LEN
    ensures ParseFields(Layout(r, sum)).Ok? <==> Valid(r)
    ensures Valid(r) ==> ParseFields(Layout(r, sum)) == Ok(r)
  {
    hide Layout, Join, ToBE;
    Starts(r);
    Spans();
    LayoutAt(r, sum, 4);
    LayoutAt(r, sum, 5);
    LayoutAt(r, sum, 6);
    LayoutAt(r, sum, 7);
    LayoutAt(r, sum, 8);
    LayoutAt(r, sum, 9);
    LayoutAt(r, sum, 10);
    ReadsBack(Previous(r.epoch), 8);
    ReadsBack(r.epoch, 8);
    ReadsBack(r.writtenAt, 8);
  }

  /** `encode`: the layout, unless the parser would refuse it. */
  function Encode(r: Record, sum: Sum): Result<Bytes, Corrupt> {
    var parsed := Parse(Layout(r, sum), sum);
    if parsed.Err? then Err(parsed.error) else Ok(Layout(r, sum))
  }

  /** Encoding refuses exactly the invalid field values, and what it gives parses to the record. */
  lemma ParseUndoesEncode(r: Record, sum: Sum)
    requires Typed(r) && Is32(sum)
    ensures Encode(r, sum).Ok? <==> Valid(r)
    ensures Encode(r, sum).Ok? ==> |Encode(r, sum).value| == LEN && Parse(Encode(r, sum).value, sum) == Ok(r)
  {
    hide Layout, Parse, ParseFields, Valid, Typed;
    HeaderReadsBack(r, sum);
    FieldsReadBack(r, sum);
  }

  /** A byte string that parses is the one encoding of what it parses to. */
  lemma EncodeUndoesParse(b: Bytes, sum: Sum)
    requires Is32(sum) && Parse(b, sum).Ok?
    ensures Typed(Parse(b, sum).value) && Valid(Parse(b, sum).value) && Encode(Parse(b, sum).value, sum) == Ok(b)
  {
    hide Layout, Encode;
    var r := Parse(b, sum).value;
    ParsedIsLayout(b, sum);
    ParseUndoesEncode(r, sum);
    assert Encode(r, sum) == Ok(b) by { EncodeIsLayout(r, sum); }
  }

  lemma EncodeIsLayout(r: Record, sum: Sum)
    requires Encode(r, sum).Ok?
    ensures Encode(r, sum) == Ok(Layout(r, sum))
  {
  }

  lemma HeaderHolds(b: Bytes, r: Record)
    requires Typed(r) && |b| == LEN && b[0..8] == MAGIC
    requires FromBE(b[8..10]) == VERSION && FromBE(b[10..12]) == LEN && FromBE(b[12..16]) == 0
    ensures forall i: nat | i < 4 :: Holds(b, Fields(r), i)
  {
    hide ToBE, FromBE, Zeros;
    Starts(r);
    WritesBack(b[8..10]);
    WritesBack(b[10..12]);
    WritesBack(b[12..16]);
    ZerosAreZero(4);
    var f := Fields(r);
    assert Holds(b, f, 0) && Holds(b, f, 1) && Holds(b, f, 2) && Holds(b, f, 3);
  }

  lemma BodyHolds(b: Bytes, r: Record)
    requires |b| == LEN && Typed(r)
    requires r == Record(b[16..32], FromBE(b[40..48]), b[48..64], b[64..96], b[96..128], FromBE(b[128..136]))
    requires FromBE(b[32..40]) == Previous(r.epoch)
    ensures forall i: nat | 4 <= i < 11 :: Holds(b, Fields(r), i)
  {
    hide ToBE, FromBE, Zeros, Previous;
    Starts(r);
    WritesBack(b[32..40]);
    WritesBack(b[40..48]);
    WritesBack(b[128..136]);
    var f := Fields(r);
    assert Holds(b, f, 4) && Holds(b, f, 5) && Holds(b, f, 6) && Holds(b, f, 7);
    assert Holds(b, f, 8) && Holds(b, f, 9) && Holds(b, f, 10);
  }

  lemma ParsedIsLayout(b: Bytes, sum: Sum)
    requires Is32(sum) && Parse(b, sum).Ok?
    ensures Typed(Parse(b, sum).value) && Valid(Parse(b, sum).value) && b == Layout(Parse(b, sum).value, sum)
  {
    hide Join, Holds, ToBE, FromBE, Fields;
    var r := Parse(b, sum).value;
    Spans();
    HeaderHolds(b, r);
    BodyHolds(b, r);
    FieldCount(r);
    IsJoin(b, Fields(r), 11);
    Starts(r);
    assert Fields(r)[..11] == Fields(r);
    Extend(b, BODY, LEN);
    assert b[..LEN] == b;
  }

  lemma FieldCount(r: Record)
    ensures |Fields(r)| == 11
  {
  }

  /** `encode` as the code fills its array. */
  method EncodeInPlace(r: Record, sum: Sum) returns (bytes: Result<array<Byte>, Corrupt>)
    requires Typed(r) && Is32(sum)
    ensures Encode(r, sum) == if bytes.Ok? then Ok(bytes.value[..]) else Err(bytes.error)
    ensures bytes.Ok? <==> Valid(r)
  {
    var out := new Byte[LEN](_ => 0);
    FillHeader(out, r);
    FillFields(out, r);
    BodyLength(r);
    var checksum := sum(out[..BODY]);
    forall i | 0 <= i < 32 {
      out[BODY + i] := checksum[i];
    }
    assert out[..] == out[..BODY] + out[BODY..];
    assert out[BODY..] == checksum;
    assert out[..] == Layout(r, sum);
    ParseUndoesEncode(r, sum);
    hide Parse, Layout;
    var parsed := Parse(out[..], sum);
    if parsed.Err? {
      return Err(parsed.error);
    }
    return Ok(out);
  }

  method FillHeader(out: array<Byte>, r: Record)
    requires Typed(r) && out.Length == LEN && Zero(out[..])
    modifies out
    ensures out[..16] == Join(Fields(r)[..4])
  {
    hide Join, ToBE;
    ghost var f := Fields(r);
    assert f[..0] == [] && Join(f[..0]) == [] by { NothingJoined(f); }
    Put(out, 0, MAGIC, f, 0);
    Put(out, 8, ToBE(VERSION, 2), f, 1);
    Put(out, 10, ToBE(LEN, 2), f, 2);
    assert Zero(out[12..16]);
    ZeroIsZeros(out[12..16]);
    Skip(out, 12, f, 3);
  }

  method FillFields(out: array<Byte>, r: Record)
    requires Typed(r) && out.Length == LEN && out[..16] == Join(Fields(r)[..4])
    modifies out
    ensures out[..BODY] == Join(Fields(r))
  {
    hide Join, ToBE, Zeros;
    ghost var f := Fields(r);
    Put(out, 16, r.instance, f, 4);
    Put(out, 32, ToBE(Previous(r.epoch), 8), f, 5);
    Put(out, 40, ToBE(r.epoch, 8), f, 6);
    Put(out, 48, r.txn, f, 7);
    Put(out, 64, r.restoredDb, f, 8);
    Put(out, 96, r.transitionSet, f, 9);
    Put(out, 128, ToBE(r.writtenAt, 8), f, 10);
    assert f[..11] == f;
  }
}
