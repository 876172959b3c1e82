/** The streaming sealed container: `seal` splits a plaintext into authenticated frames with
    one frame of lookahead, `open` parses them back. The primitives are parameters.
    Source: shared/src/backup.rs. */
module Container {
  import opened Wrappers
  import opened Bytes
  import opened Seqs
  import opened Streams

  const MAGIC: Bytes := [0x53, 0x48, 0x52, 0x44, 0x58, 0x42, 0x4B, 0x32]
  const FRAME: nat := 0x1_0000
  const MAX_FRAME: nat := FRAME + 4096
  const MAX_PLAIN: nat := 0x1_0000_0000
  const MAX_CIPHER: nat := 0x1_0400_0000
  const MAX_PROLOGUE_RECORD: nat := 0x1_0000
  const MAX_HEAD: nat := 0x2_0000
  const U32_MAX: nat := 0xFFFF_FFFF
  const TAG: nat := 16
  const WRAP_NONCE_LEN: nat := 12
  const PREFIX_LEN: nat := 7
  const KEY_LEN: nat := 32
  const ID_LEN: nat := 16

  /** The fields of the canonical records that are read or written by name. */
  datatype Name =
    | SlotContext | WrapNonce | WrappedDek
    | NoncePrefix | ProfileId | MaxPlaintext | MaxCiphertext
    | Domain | Version | SuiteId | SlotBytes | IntentBytes | IntentHash | FrameCount | PlaintextLen
    | SignerKeyId | VerifyingKey | Signature | HeadHash
    | OtherName(n: nat)
  datatype Field = Blob(bytes: Bytes) | Uint(n: nat) | OtherField
  type Fields = map<Name, Field>
  datatype Value = Map(fields: Fields) | NotAMap

  /** The record or the check a malformed container fails at. */
  datatype What =
    | InMagic | InSlot | InIntent | InFrameFlag | InFrame | InHead
    | SlotNotCanonical | IntentNotCanonical | NoSlotContext | NoWrapNonce | NoWrappedDek | WrapNonceLength
    | NoPrefix | PrefixLength
    | HeadNotCanonical | HeadNotAMap | NoSignature | NoSignerKeyId | NoVerifyingKey | VerifyingKeyLength
    | NoHeadHash | NoFrameCount | NoPlaintextLen | NoIntentHash | IntentHashMismatch
    | NoSlotBytes | SlotMismatch | NoIntentBytes | IntentMismatch | NoProfileId

  datatype Error =
    | BadMagic
    | Malformed(what: What)
    | SizeLimit(limit: nat, actual: nat)
    | FrameAuthFailed(counter: nat)
    | Unterminated(framesRead: nat)
    | FrameCountMismatch(declared: nat, actual: nat)
    | SignatureInvalid
    | KeyUnwrapFailed
    | Intent

  /** What every frame of one stream shares; a frame adds its counter and final flag. */
  datatype Stream = Stream(dek: Bytes, prefix: Bytes, intentHash: Bytes)
  datatype Signer = Signer(vk: Bytes, key: nat)

  /** The primitives. `decode` is the canonical decoder that also re-encodes and compares. */
  datatype Suite = Suite(
    decode: Bytes -> Option<Value>,
    encode: Fields -> Bytes,
    intentHash: Bytes -> Bytes,
    headHash: Bytes -> Bytes,
    unwrap: (Bytes, Bytes, Bytes, Bytes) -> Option<Bytes>,
    sealFrame: (Stream, nat, bool, Bytes) -> Bytes,
    openFrame: (Stream, nat, bool, Bytes) -> Option<Bytes>,
    keyId: Bytes -> Bytes,
    sign: (Signer, Bytes) -> Bytes,
    verify: (Bytes, Bytes, Bytes) -> bool)

  // -------------------------------------------------------------- records ----

  function BlobOf(v: Value, name: Name): Option<Bytes> {
    if v.Map? && name in v.fields && v.fields[name].Blob? then Some(v.fields[name].bytes) else None
  }

  function UintOf(v: Value, name: Name): Option<nat> {
    if v.Map? && name in v.fields && v.fields[name].Uint? then Some(v.fields[name].n) else None
  }

  /** A length-prefixed record; a length of 2^32 or more loses its high bits. */
  function Record(b: Bytes): Bytes { ToBE(|b|, 4) + b }

  function Split(input: Bytes, n: nat, what: What): Result<(Bytes, Bytes), Error> {
    if |input| < n then Err(Malformed(what)) else Ok((input[..n], input[n..]))
  }

  function ReadRecord(input: Bytes, cap: nat, what: What): (r: Result<(Bytes, Bytes), Error>)
    ensures r.Ok? ==> |r.value.1| < |input| && |r.value.0| <= cap
  {
    if |input| < 4 then Err(Malformed(what))
    else
      var n := FromBE(input[..4]);
      if n > cap then Err(SizeLimit(cap, n)) else Split(input[4..], n, what)
  }

  lemma FourBytesReadBack(n: nat)
    requires n <= U32_MAX
    ensures FromBE(ToBE(n, 4)) == n
  {
    Spans();
    ReadsBack(n, 4);
  }

  /** Reading back a written record, up to and including its cap. */
  lemma RecordReadsBack(b: Bytes, tail: Bytes, cap: nat, what: What)
    requires |b| <= U32_MAX
    ensures ReadRecord(Record(b) + tail, cap, what) == if |b| <= cap then Ok((b, tail)) else Err(SizeLimit(cap, |b|))
  {
    hide FromBE, ToBE, Span;
    FourBytesReadBack(|b|);
    var input := Record(b) + tail;
    assert input[..4] == ToBE(|b|, 4);
    assert input[4..] == b + tail;
    assert (b + tail)[..|b|] == b && (b + tail)[|b|..] == tail;
  }

  /** A record that was read is the only encoding of what was read. */
  lemma RecordIsExact(input: Bytes, cap: nat, what: What)
    requires ReadRecord(input, cap, what).Ok?
    ensures var r := ReadRecord(input, cap, what).value; input == Record(r.0) + r.1
  {
    WritesBack(input[..4]);
    var n := FromBE(input[..4]);
    assert input == input[..4] + (input[4..][..n] + input[4..][n..]);
  }

  // --------------------------------------------------------------- frames ----

  /** Where chunk `i` starts. */
  function At(i: nat): nat { i * 0x1_0000 }

  /** How many non-final frames a plaintext of `len` bytes takes. */
  function Whole(len: nat): nat {
    if len == 0 then 0 else (len - 1) / FRAME
  }

  function Chunk(p: Bytes, i: nat): Bytes
    requires At(i) <= |p|
  {
    if |p| <= At(i + 1) then p[At(i)..] else p[At(i)..At(i + 1)]
  }

  function Frame(last: bool, ct: Bytes): Bytes { [if last then 1 else 0] + Record(ct) }

  /** The frames of `p` from frame `i` on, the last one final. */
  function Frames(s: Suite, st: Stream, p: Bytes, i: nat): (b: Bytes)
    requires At(i) <= |p|
    ensures |b| > 0
    decreases |p| - At(i)
  {
    if |p| <= At(i + 1) then Frame(true, s.sealFrame(st, i, true, Chunk(p, i)))
    else Frame(false, s.sealFrame(st, i, false, Chunk(p, i))) + Frames(s, st, p, i + 1)
  }

  datatype Opened = Opened(last: bool, plain: Bytes, rest: Bytes)

  function ReadFrame(s: Suite, st: Stream, input: Bytes, counter: nat): (r: Result<Opened, Error>)
    ensures r.Ok? ==> |r.value.rest| < |input|
  {
    if |input| == 0 || input[0] > 1 then Err(Malformed(InFrameFlag))
    else
      var last := input[0] == 1;
      match ReadRecord(input[1..], MAX_FRAME, InFrame)
      case Err(e) => Err(e)
      case Ok((ct, rest)) =>
        var plain := s.openFrame(st, counter, last, ct);
        if plain.None? then Err(FrameAuthFailed(counter)) else Ok(Opened(last, plain.value, rest))
  }

  /** All frames read so far, the counter of the last one, and the input after it. */
  datatype Body = Body(plain: Bytes, counter: nat, rest: Bytes)

  function ReadFrames(s: Suite, st: Stream, input: Bytes, counter: nat, before: Bytes): Result<Body, Error>
    decreases |input|
  {
    match ReadFrame(s, st, input, counter)
    case Err(e) => Err(e)
    case Ok(f) =>
      var plain := before + f.plain;
      if |plain| > MAX_PLAIN then Err(SizeLimit(MAX_PLAIN, |plain|))
      else if f.last then Ok(Body(plain, counter, f.rest))
      else if counter >= U32_MAX then Err(Unterminated(U32_MAX))
      else ReadFrames(s, st, f.rest, counter + 1, plain)
  }

  // ------------------------------------------------------- prologue, head ----

  datatype Material = Material(slot: Bytes, intent: Bytes)

  function Prologue(m: Material): Bytes { MAGIC + Record(m.slot) + Record(m.intent) }

  datatype Unlocked = Unlocked(intent: Value, stream: Stream)

  /** The checks between the prologue and the first frame, in the code's order. */
  function Unlock(s: Suite, fkek: Bytes, m: Material): Result<Unlocked, Error> {
    var slotV, intentV := s.decode(m.slot), s.decode(m.intent);
    if slotV.None? then Err(Malformed(SlotNotCanonical))
    else if intentV.None? then Err(Malformed(IntentNotCanonical))
    else
      var slot, intent := slotV.value, intentV.value;
      var context, nonce, wrapped := BlobOf(slot, SlotContext), BlobOf(slot, WrapNonce), BlobOf(slot, WrappedDek);
      if context.None? then Err(Malformed(NoSlotContext))
      else if nonce.None? then Err(Malformed(NoWrapNonce))
      else if wrapped.None? then Err(Malformed(NoWrappedDek))
      else if |nonce.value| != WRAP_NONCE_LEN then Err(Malformed(WrapNonceLength))
      else
        var dek, prefix := s.unwrap(fkek, nonce.value, wrapped.value, context.value), BlobOf(intent, NoncePrefix);
        if dek.None? then Err(KeyUnwrapFailed)
        else if prefix.None? then Err(Malformed(NoPrefix))
        else if |prefix.value| != PREFIX_LEN then Err(Malformed(PrefixLength))
        else Ok(Unlocked(intent, Stream(dek.value, prefix.value, s.intentHash(m.intent))))
  }

  function HeadFields(s: Suite, m: Material, vk: Bytes, frames: nat, len: nat): Fields {
    map[Domain := OtherField, Version := Uint(2), SuiteId := OtherField,
        SlotBytes := Blob(m.slot), IntentBytes := Blob(m.intent), IntentHash := Blob(s.intentHash(m.intent)),
        FrameCount := Uint(frames), PlaintextLen := Uint(len),
        SignerKeyId := Blob(s.keyId(vk)), VerifyingKey := Blob(vk)]
  }

  function CoreFields(s: Suite, signer: Signer, tbs: Fields): Fields {
    tbs[Signature := Blob(s.sign(signer, s.encode(tbs)))]
  }

  function HeadHashOf(s: Suite, signer: Signer, tbs: Fields): Bytes { s.headHash(s.encode(CoreFields(s, signer, tbs))) }

  /** `build_signed_container`: the signature over the fields, then the hash over both. */
  function SignedHead(s: Suite, signer: Signer, tbs: Fields): Bytes {
    s.encode(CoreFields(s, signer, tbs)[HeadHash := Blob(HeadHashOf(s, signer, tbs))])
  }

  datatype OpenOutcome = OpenOutcome(intentHash: Bytes, headHash: Bytes, frames: nat, plaintextLen: nat, profile: Bytes)

  function HeadCore(v: Value): Fields { if v.Map? then v.fields - {HeadHash} else map[] }
  function HeadTbs(v: Value): Fields { if v.Map? then v.fields - {Signature, HeadHash} else map[] }

  /** Why the head is not signed by the expected key, or its hash is not its own. */
  function SignatureFault(s: Suite, v: Value, signerId: Bytes): Option<Error> {
    var sig, keyId, vk, declared := BlobOf(v, Signature), BlobOf(v, SignerKeyId), BlobOf(v, VerifyingKey), BlobOf(v, HeadHash);
    if v.NotAMap? then Some(Malformed(HeadNotAMap))
    else if sig.None? then Some(Malformed(NoSignature))
    else if keyId.None? then Some(Malformed(NoSignerKeyId))
    else if keyId.value != signerId then Some(SignatureInvalid)
    else if vk.None? then Some(Malformed(NoVerifyingKey))
    else if |vk.value| != KEY_LEN then Some(Malformed(VerifyingKeyLength))
    else if s.keyId(vk.value) != keyId.value then Some(SignatureInvalid)
    else if !s.verify(vk.value, s.encode(HeadTbs(v)), sig.value) then Some(SignatureInvalid)
    else if declared.None? then Some(Malformed(NoHeadHash))
    else if declared.value != s.headHash(s.encode(HeadCore(v))) then Some(SignatureInvalid)
    else None
  }

  /** Why the head does not declare what was read; a declared count is reported in 32 bits. */
  function CountFault(v: Value, frames: nat, len: nat): Option<Error> {
    var declaredFrames, declaredLen := UintOf(v, FrameCount), UintOf(v, PlaintextLen);
    if declaredFrames.None? then Some(Malformed(NoFrameCount))
    else if declaredFrames.value != frames then Some(FrameCountMismatch(declaredFrames.value % (U32_MAX + 1), frames))
    else if declaredLen.None? then Some(Malformed(NoPlaintextLen))
    else if declaredLen.value != len then Some(SizeLimit(declaredLen.value, len))
    else None
  }

  /** Why the head does not bind the exact prologue. */
  function BindingFault(s: Suite, v: Value, m: Material): Option<Error> {
    var intentHash, slot, intent := BlobOf(v, IntentHash), BlobOf(v, SlotBytes), BlobOf(v, IntentBytes);
    if intentHash.None? then Some(Malformed(NoIntentHash))
    else if intentHash.value != s.intentHash(m.intent) then Some(Malformed(IntentHashMismatch))
    else if slot.None? then Some(Malformed(NoSlotBytes))
    else if slot.value != m.slot then Some(Malformed(SlotMismatch))
    else if intent.None? then Some(Malformed(NoIntentBytes))
    else if intent.value != m.intent then Some(Malformed(IntentMismatch))
    else None
  }

  function HeadFault(s: Suite, v: Value, m: Material, frames: nat, len: nat, signerId: Bytes): Option<Error> {
    var a, b, c := SignatureFault(s, v, signerId), CountFault(v, frames, len), BindingFault(s, v, m);
    if a.Some? then a else if b.Some? then b else c
  }

  /** The checks after the last frame, in the code's order. */
  function CheckHead(s: Suite, head: Bytes, m: Material, intent: Value, frames: nat, len: nat, signerId: Bytes)
    : Result<OpenOutcome, Error>
  {
    var v, profile := s.decode(head), BlobOf(intent, ProfileId);
    if v.None? then Err(Malformed(HeadNotCanonical))
    else
      var fault := HeadFault(s, v.value, m, frames, len, signerId);
      if fault.Some? then Err(fault.value)
      else if profile.None? || |profile.value| != ID_LEN then Err(Malformed(NoProfileId))
      else Ok(OpenOutcome(s.intentHash(m.intent), s.headHash(s.encode(HeadCore(v.value))), frames, len, profile.value))
  }

  // ----------------------------------------------------- open, as a parser ----

  datatype Opening = Opening(material: Material, unlocked: Unlocked, rest: Bytes)

  function ReadPrologue(s: Suite, input: Bytes, fkek: Bytes): Result<Opening, Error> {
    if |input| < |MAGIC| then Err(Malformed(InMagic))
    else if input[..|MAGIC|] != MAGIC then Err(BadMagic)
    else
      match ReadRecord(input[|MAGIC|..], MAX_PROLOGUE_RECORD, InSlot)
      case Err(e) => Err(e)
      case Ok((slot, afterSlot)) =>
        match ReadRecord(afterSlot, MAX_PROLOGUE_RECORD, InIntent)
        case Err(e) => Err(e)
        case Ok((intent, rest)) =>
          var m := Material(slot, intent);
          var u := Unlock(s, fkek, m);
          if u.Err? then Err(u.error) else Ok(Opening(m, u.value, rest))
  }

  function ReadHead(s: Suite, input: Bytes, m: Material, intent: Value, frames: nat, len: nat, signerId: Bytes)
    : Result<OpenOutcome, Error>
  {
    match ReadRecord(input, MAX_HEAD, InHead)
    case Err(e) => Err(e)
    case Ok((head, _)) => CheckHead(s, head, m, intent, frames, len, signerId)
  }

  /** What follows the prologue: the frames, then the head. The frame count is one more than a
      32-bit counter. */
  function ParseBody(s: Suite, o: Opening, signerId: Bytes): Result<(Bytes, OpenOutcome), Error> {
    match ReadFrames(s, o.unlocked.stream, o.rest, 0, [])
    case Err(e) => Err(e)
    case Ok(body) =>
      var head := ReadHead(s, body.rest, o.material, o.unlocked.intent, (body.counter + 1) % (U32_MAX + 1), |body.plain|, signerId);
      if head.Err? then Err(head.error) else Ok((body.plain, head.value))
  }

  /** The whole container read as a byte string: the plaintext and the outcome. */
  function Parse(s: Suite, input: Bytes, fkek: Bytes, signerId: Bytes): Result<(Bytes, OpenOutcome), Error> {
    var o := ReadPrologue(s, input, fkek);
    if o.Err? then Err(o.error) else ParseBody(s, o.value, signerId)
  }

  // ----------------------------------------------------------------- seal ----

  datatype SealOutcome = SealOutcome(intentHash: Bytes, headHash: Bytes, frames: nat, plaintextLen: nat, ciphertextLen: nat)

  method NextChunk(input: Reader, buf: array<Byte>) returns (chunk: Bytes, eof: bool)
    requires buf.Length == FRAME
    modifies input, buf
    ensures |chunk| <= |old(input.rest)| && chunk == old(input.rest)[..|chunk|] && input.rest == old(input.rest)[|chunk|..]
    ensures |chunk| <= FRAME && if eof then |chunk| < FRAME && |chunk| == |old(input.rest)| else |chunk| == FRAME
  {
    var filled;
    filled, eof := Fill(input, buf);
    chunk := buf[..filled];
  }

  method EmitFrame(s: Suite, st: Stream, out: Sink, chunk: Bytes, counter: nat, last: bool) returns (written: nat)
    modifies out
    ensures out.written == old(out.written) + Frame(last, s.sealFrame(st, counter, last, chunk))
    ensures written == |s.sealFrame(st, counter, last, chunk)| + 5
  {
    var ct := s.sealFrame(st, counter, last, chunk);
    out.WriteAll([if last then 1 else 0]);
    out.WriteAll(ToBE(|ct|, 4));
    out.WriteAll(ct);
    written := |ct| + 5;
  }

  /** What was written since `base` is the frames of `p` before frame `counter`. */
  ghost predicate Emitted(s: Suite, st: Stream, p: Bytes, counter: nat, base: Bytes, written: Bytes, cipherLen: nat) {
    && At(counter) <= |p|
    && written + Frames(s, st, p, counter) == base + Frames(s, st, p, 0)
    && cipherLen + |Frames(s, st, p, counter)| == |Frames(s, st, p, 0)|
  }

  /** A chunk that is known not to be the last one. */
  method EmitLeading(s: Suite, st: Stream, out: Sink, chunk: Bytes, counter: nat, cipherLen: nat, ghost p: Bytes, ghost base: Bytes)
    returns (total: nat)
    requires At(counter + 1) < |p| && chunk == Chunk(p, counter)
    requires Emitted(s, st, p, counter, base, out.written, cipherLen)
    modifies out
    ensures Emitted(s, st, p, counter + 1, base, out.written, total)
  {
    var n := EmitFrame(s, st, out, chunk, counter, false);
    total := cipherLen + n;
  }

  /** What the lookahead knows: the bytes after the emitted ones, and where the input is. */
  ghost predicate Ahead(p: Bytes, emitted: nat, carry: Option<Bytes>, rest: Bytes, eof: bool) {
    && emitted <= |p|
    && (carry.None? ==> emitted == 0 && rest == p && (eof ==> p == []))
    && (carry.Some? ==>
          && 0 < |carry.value| <= FRAME && emitted + |carry.value| <= |p|
          && carry.value == p[emitted..emitted + |carry.value|] && rest == p[emitted + |carry.value|..]
          && (eof || |carry.value| == FRAME))
    && (eof ==> rest == [])
  }

  lemma LookAhead(p: Bytes, emitted: nat, carry: Option<Bytes>, rest: Bytes, next: Bytes, eof: bool)
    requires Ahead(p, emitted, carry, rest, false) && |next| <= |rest| && next == rest[..|next|]
    requires 0 < |next| <= FRAME && (eof ==> |next| == |rest|) && (eof || |next| == FRAME)
    ensures Ahead(p, if carry.Some? then emitted + FRAME else 0, Some(next), rest[|next|..], eof)
  {
  }

  /** The frame loop with one frame of lookahead: everything but the final frame. */
  method SealLeading(s: Suite, st: Stream, input: Reader, out: Sink)
    returns (r: Result<(nat, nat, nat), Error>, carry: Option<Bytes>)
    modifies input, out
    ensures r.Err? ==> r == Err(SizeLimit(MAX_PLAIN, MAX_PLAIN + FRAME)) && MAX_PLAIN + FRAME < |old(input.rest)|
    ensures r.Ok? ==> var p, (counter, plainLen, cipherLen) := old(input.rest), r.value;
              && plainLen == At(counter) <= MAX_PLAIN && Ahead(p, plainLen, carry, [], true)
              && Emitted(s, st, p, counter, old(out.written), out.written, cipherLen)
  {
    hide Frames, Chunk;
    ghost var p, base := input.rest, out.written;
    var buf := new Byte[FRAME];
    carry := None;
    var counter, plainLen, cipherLen, eof := 0, 0, 0, false;
    while !eof
      invariant plainLen == At(counter) <= MAX_PLAIN
      invariant Ahead(p, plainLen, carry, input.rest, eof)
      invariant Emitted(s, st, p, counter, base, out.written, cipherLen)
      decreases |input.rest|, !eof
    {
      ghost var before := input.rest;
      var chunk;
      chunk, eof := NextChunk(input, buf);
      if chunk != [] {
        LookAhead(p, plainLen, carry, before, chunk, eof);
        var previous := carry;
        carry := Some(chunk);
        if previous.Some? {
          ChunkAhead(p, counter, previous.value, before);
          cipherLen := EmitLeading(s, st, out, previous.value, counter, cipherLen, p, base);
          plainLen := plainLen + |previous.value|;
          // The checked increment cannot overflow below the plaintext cap.
          assert counter < U32_MAX;
          counter := counter + 1;
          if plainLen > MAX_PLAIN {
            return Err(SizeLimit(MAX_PLAIN, plainLen)), carry;
          }
        }
      }
    }
    r := Ok((counter, plainLen, cipherLen));
  }

  lemma ChunkAhead(p: Bytes, counter: nat, chunk: Bytes, rest: Bytes)
    requires Ahead(p, At(counter), Some(chunk), rest, false) && rest != []
    ensures At(counter + 1) < |p| && chunk == Chunk(p, counter)
  {
  }

  lemma ChunkLast(p: Bytes, counter: nat, carry: Option<Bytes>)
    requires Ahead(p, At(counter), carry, [], true)
    ensures |p| <= At(counter + 1) && counter == Whole(|p|)
    ensures (if carry.Some? then carry.value else []) == Chunk(p, counter)
  {
    if carry.Some? {
      assert |p[At(counter) + |carry.value|..]| == 0;
    }
  }

  /** For every schedule of short reads it writes exactly the frames of the plaintext, and it
      refuses exactly what is over the cap. */
  method SealFrames(s: Suite, st: Stream, input: Reader, out: Sink) returns (r: Result<(nat, nat, nat), Error>)
    modifies input, out
    ensures var p := old(input.rest);
            r == if |p| <= MAX_PLAIN then Ok((Whole(|p|) + 1, |p|, |Frames(s, st, p, 0)|))
                 else Err(SizeLimit(MAX_PLAIN, if |p| <= MAX_PLAIN + FRAME then |p| else MAX_PLAIN + FRAME))
    ensures r.Ok? ==> out.written == old(out.written) + Frames(s, st, old(input.rest), 0)
  {
    ghost var p := input.rest;
    var leading, carry := SealLeading(s, st, input, out);
    var counts :- leading;
    var (counter, plainLen, cipherLen) := counts;
    ChunkLast(p, counter, carry);
    var last := if carry.Some? then carry.value else [];
    var n := EmitFrame(s, st, out, last, counter, true);
    plainLen := plainLen + |last|;
    cipherLen := cipherLen + n;
    if plainLen > MAX_PLAIN {
      return Err(SizeLimit(MAX_PLAIN, plainLen));
    }
    return Ok((counter + 1, plainLen, cipherLen));
  }

  function StreamOf(s: Suite, m: Material, dek: Bytes, prefix: Bytes): Stream { Stream(dek, prefix, s.intentHash(m.intent)) }

  function HeadOf(s: Suite, m: Material, signer: Signer, p: Bytes): Fields {
    HeadFields(s, m, signer.vk, Whole(|p|) + 1, |p|)
  }

  /** The container of a plaintext within the cap. */
  function Sealed(s: Suite, m: Material, dek: Bytes, prefix: Bytes, signer: Signer, p: Bytes): Bytes {
    Prologue(m) + Frames(s, StreamOf(s, m, dek, prefix), p, 0) + Record(SignedHead(s, signer, HeadOf(s, m, signer, p)))
  }

  method WritePrologue(out: Sink, m: Material)
    modifies out
    ensures out.written == old(out.written) + Prologue(m)
  {
    out.WriteAll(MAGIC);
    out.WriteAll(Record(m.slot));
    out.WriteAll(Record(m.intent));
  }

  /** `seal`; `material` is what building the slot and the intent gave. */
  method Seal(s: Suite, input: Reader, out: Sink, material: Result<Material, Error>, dek: Bytes, prefix: Bytes, signer: Signer)
    returns (r: Result<SealOutcome, Error>)
    modifies input, out
    ensures r.Ok? <==> material.Ok? && |old(input.rest)| <= MAX_PLAIN
    ensures material.Err? ==> r == Err(material.error) && out.written == old(out.written)
    ensures r.Err? && material.Ok? ==> r.error.SizeLimit?
    ensures r.Ok? ==> out.written == old(out.written) + Sealed(s, material.value, dek, prefix, signer, old(input.rest))
    ensures r.Ok? ==> var m, p := material.value, old(input.rest);
              r.value == SealOutcome(s.intentHash(m.intent), HeadHashOf(s, signer, HeadOf(s, m, signer, p)),
                                     Whole(|p|) + 1, |p|, |Frames(s, StreamOf(s, m, dek, prefix), p, 0)|)
  {
    hide Frames, Record, Prologue, SignedHead, HeadHashOf, HeadFields, StreamOf, Whole;
    var m :- material;
    ghost var p := input.rest;
    WritePrologue(out, m);
    var counts :- SealFrames(s, StreamOf(s, m, dek, prefix), input, out);
    var tbs := HeadFields(s, m, signer.vk, counts.0, counts.1);
    out.WriteAll(Record(SignedHead(s, signer, tbs)));
    Assoc(old(out.written), Prologue(m), Frames(s, StreamOf(s, m, dek, prefix), p, 0));
    Assoc(old(out.written), Prologue(m) + Frames(s, StreamOf(s, m, dek, prefix), p, 0), Record(SignedHead(s, signer, tbs)));
    return Ok(SealOutcome(s.intentHash(m.intent), HeadHashOf(s, signer, tbs), counts.0, counts.1, counts.2));
  }

  // ----------------------------------------------------------------- open ----

  method TakeRecord(input: Reader, cap: nat, what: What) returns (r: Result<Bytes, Error>)
    modifies input
    ensures ReadRecord(old(input.rest), cap, what) == if r.Ok? then Ok((r.value, input.rest)) else Err(r.error)
  {
    var len := input.ReadExact(4);
    if len.None? {
      return Err(Malformed(what));
    }
    var n := FromBE(len.value);
    if n > cap {
      return Err(SizeLimit(cap, n));
    }
    var body := input.ReadExact(n);
    if body.None? {
      return Err(Malformed(what));
    }
    return Ok(body.value);
  }

  method TakeFrame(s: Suite, st: Stream, input: Reader, counter: nat) returns (r: Result<(bool, Bytes), Error>)
    modifies input
    ensures ReadFrame(s, st, old(input.rest), counter)
         == if r.Ok? then Ok(Opened(r.value.0, r.value.1, input.rest)) else Err(r.error)
  {
    var flag := input.ReadExact(1);
    if flag.None? || flag.value[0] > 1 {
      return Err(Malformed(InFrameFlag));
    }
    var last := flag.value[0] == 1;
    var ct :- TakeRecord(input, MAX_FRAME, InFrame);
    var plain := s.openFrame(st, counter, last, ct);
    if plain.None? {
      return Err(FrameAuthFailed(counter));
    }
    return Ok((last, plain.value));
  }

  method TakeFrames(s: Suite, st: Stream, input: Reader, out: Sink)
    returns (r: Result<(nat, nat), Error>, ghost plain: Bytes)
    modifies input, out
    ensures out.written == old(out.written) + plain
    ensures ReadFrames(s, st, old(input.rest), 0, []) == if r.Ok? then Ok(Body(plain, r.value.0, input.rest)) else Err(r.error)
    ensures r.Ok? ==> r.value.1 == |plain|
  {
    var counter, plainLen, sawFinal := 0, 0, false;
    plain := [];
    ghost var base, all := out.written, input.rest;
    while !sawFinal
      invariant plainLen == |plain| && out.written == base + plain
      invariant ReadFrames(s, st, all, 0, [])
             == if sawFinal then Ok(Body(plain, counter, input.rest)) else ReadFrames(s, st, input.rest, counter, plain)
      decreases |input.rest|, !sawFinal
    {
      var f := TakeFrame(s, st, input, counter);
      if f.Err? {
        return Err(f.error), plain;
      }
      var (last, chunk) := f.value;
      plainLen := plainLen + |chunk|;
      if plainLen > MAX_PLAIN {
        return Err(SizeLimit(MAX_PLAIN, plainLen)), plain;
      }
      out.WriteAll(chunk);
      Assoc(base, plain, chunk);
      plain := plain + chunk;
      sawFinal := last;
      if !sawFinal {
        if counter >= U32_MAX {
          return Err(Unterminated(U32_MAX)), plain;
        }
        counter := counter + 1;
      }
    }
    r := Ok((counter, plainLen));
  }

  method TakePrologue(s: Suite, input: Reader, fkek: Bytes) returns (r: Result<(Material, Unlocked), Error>)
    modifies input
    ensures ReadPrologue(s, old(input.rest), fkek)
         == if r.Ok? then Ok(Opening(r.value.0, r.value.1, input.rest)) else Err(r.error)
  {
    var magic := input.ReadExact(|MAGIC|);
    if magic.None? {
      return Err(Malformed(InMagic));
    }
    if magic.value != MAGIC {
      return Err(BadMagic);
    }
    var slot :- TakeRecord(input, MAX_PROLOGUE_RECORD, InSlot);
    var intent :- TakeRecord(input, MAX_PROLOGUE_RECORD, InIntent);
    var unlocked :- Unlock(s, fkek, Material(slot, intent));
    return Ok((Material(slot, intent), unlocked));
  }

  method TakeHead(s: Suite, input: Reader, m: Material, intent: Value, frames: nat, len: nat, signerId: Bytes)
    returns (r: Result<OpenOutcome, Error>)
    modifies input
    ensures r == ReadHead(s, old(input.rest), m, intent, frames, len, signerId)
  {
    var head :- TakeRecord(input, MAX_HEAD, InHead);
    return CheckHead(s, head, m, intent, frames, len, signerId);
  }

  method OpenBody(s: Suite, input: Reader, out: Sink, m: Material, u: Unlocked, signerId: Bytes)
    returns (r: Result<OpenOutcome, Error>, ghost plain: Bytes)
    modifies input, out
    ensures out.written == old(out.written) + plain
    ensures ParseBody(s, Opening(m, u, old(input.rest)), signerId) == if r.Ok? then Ok((plain, r.value)) else Err(r.error)
  {
    hide ReadFrames, ReadHead;
    var counts;
    counts, plain := TakeFrames(s, u.stream, input, out);
    if counts.Err? {
      return Err(counts.error), plain;
    }
    r := TakeHead(s, input, m, u.intent, (counts.value.0 + 1) % (U32_MAX + 1), counts.value.1, signerId);
  }

  /** `open`. It reads no further than the head; the plaintext is written as it is opened. */
  method Open(s: Suite, input: Reader, out: Sink, fkek: Bytes, signerId: Bytes)
    returns (r: Result<OpenOutcome, Error>, ghost plain: Bytes)
    modifies input, out
    ensures out.written == old(out.written) + plain
    ensures Parse(s, old(input.rest), fkek, signerId) == if r.Ok? then Ok((plain, r.value)) else Err(r.error)
  {
    plain := [];
    var o := TakePrologue(s, input, fkek);
    if o.Err? {
      return Err(o.error), plain;
    }
    r, plain := OpenBody(s, input, out, o.value.0, o.value.1, signerId);
  }

  // ------------------------------------------------- counts, nonces, sizes ----

  /** Every non-final frame is full, an exact multiple gets no empty frame, and the frame count
      is the least that holds the plaintext, but for the empty one's single frame. */
  lemma FrameCounts(p: Bytes)
    ensures var n := Whole(|p|);
            && At(n) <= |p| && |Chunk(p, n)| <= FRAME && (p != [] ==> Chunk(p, n) != [])
            && (forall i: nat | i < n :: At(i) <= |p| && |Chunk(p, i)| == FRAME)
            && n + 1 == (if p == [] then 1 else (|p| + FRAME - 1) / FRAME)
            && (|p| <= MAX_PLAIN ==> n < U32_MAX)
  {
  }

  /** A sealed frame is 16 bytes longer than its plaintext (section 2.8 of RFC 8439). */
  ghost predicate Tagged(s: Suite) {
    forall st, i, last, p :: |s.sealFrame(st, i, last, p)| == |p| + TAG
  }

  lemma {:induction false} FramesSize(s: Suite, st: Stream, p: Bytes, i: nat)
    requires Tagged(s) && At(i) <= |p| && i <= Whole(|p|)
    ensures |Frames(s, st, p, i)| == |p| - At(i) + (Whole(|p|) + 1 - i) * (TAG + 5)
    decreases |p| - At(i)
  {
    assert |Frame(true, s.sealFrame(st, i, true, Chunk(p, i)))| == |Chunk(p, i)| + TAG + 5;
    assert |Frame(false, s.sealFrame(st, i, false, Chunk(p, i)))| == |Chunk(p, i)| + TAG + 5;
    if At(i + 1) < |p| {
      FramesSize(s, st, p, i + 1);
    }
  }

  function NonceOf(prefix: Bytes, counter: nat, last: bool): Bytes {
    prefix + ToBE(counter, 4) + [if last then 1 else 0]
  }

  /** No two frames of a plaintext within the cap share a nonce. */
  lemma NoncesDiffer(prefix: Bytes, p: Bytes, i: nat, j: nat)
    requires |p| <= MAX_PLAIN && i < j <= Whole(|p|)
    ensures NonceOf(prefix, i, i == Whole(|p|)) != NonceOf(prefix, j, j == Whole(|p|))
  {
    Spans();
    ReadsBack(i, 4);
    ReadsBack(j, 4);
    var a, b := NonceOf(prefix, i, i == Whole(|p|)), NonceOf(prefix, j, j == Whole(|p|));
    assert a[|prefix|..][..4] == ToBE(i, 4) && b[|prefix|..][..4] == ToBE(j, 4);
  }

  // ----------------------------------------------------------- round trip ----

  /** The primitives undo each other. */
  ghost predicate Correct(s: Suite) {
    && Tagged(s)
    && (forall f :: s.decode(s.encode(f)) == Some(Map(f)))
    && (forall st, i, last, p :: s.openFrame(st, i, last, s.sealFrame(st, i, last, p)) == Some(p))
    && (forall signer: Signer, m :: s.verify(signer.vk, m, s.sign(signer, m)))
  }

  lemma FrameReadsBack(s: Suite, st: Stream, i: nat, last: bool, plain: Bytes, tail: Bytes)
    requires Correct(s) && |plain| <= FRAME
    ensures ReadFrame(s, st, Frame(last, s.sealFrame(st, i, last, plain)) + tail, i) == Ok(Opened(last, plain, tail))
  {
    hide ReadRecord, Record;
    var ct := s.sealFrame(st, i, last, plain);
    var flag: Bytes := [if last then 1 else 0];
    var input := Frame(last, ct) + tail;
    RecordReadsBack(ct, tail, MAX_FRAME, InFrame);
    assert input[..1] == flag && input[1..] == Record(ct) + tail;
  }

  lemma LastFrame(s: Suite, st: Stream, input: Bytes, i: nat, before: Bytes, plain: Bytes, rest: Bytes)
    requires ReadFrame(s, st, input, i) == Ok(Opened(true, plain, rest)) && |before + plain| <= MAX_PLAIN
    ensures ReadFrames(s, st, input, i, before) == Ok(Body(before + plain, i, rest))
  {
  }

  lemma MoreFrames(s: Suite, st: Stream, input: Bytes, i: nat, before: Bytes, plain: Bytes, rest: Bytes)
    requires ReadFrame(s, st, input, i) == Ok(Opened(false, plain, rest)) && |before + plain| <= MAX_PLAIN && i < U32_MAX
    ensures ReadFrames(s, st, input, i, before) == ReadFrames(s, st, rest, i + 1, before + plain)
  {
  }

  lemma ChunkExtends(p: Bytes, i: nat)
    requires At(i) <= |p| && i <= Whole(|p|)
    ensures i == Whole(|p|) <==> |p| <= At(i + 1)
    ensures |Chunk(p, i)| <= FRAME
    ensures p[..At(i)] + Chunk(p, i) == if i == Whole(|p|) then p else p[..At(i + 1)]
  {
  }

  /** Frame `i` of the sealed frames, read back. */
  lemma NextReadsBack(s: Suite, st: Stream, p: Bytes, i: nat, tail: Bytes)
    requires Correct(s) && At(i) <= |p| && i <= Whole(|p|)
    ensures ReadFrame(s, st, Frames(s, st, p, i) + tail, i)
         == if i == Whole(|p|) then Ok(Opened(true, Chunk(p, i), tail))
            else Ok(Opened(false, Chunk(p, i), Frames(s, st, p, i + 1) + tail))
    ensures i == Whole(|p|) <==> |p| <= At(i + 1)
    ensures p[..At(i)] + Chunk(p, i) == if i == Whole(|p|) then p else p[..At(i + 1)]
  {
    ChunkExtends(p, i);
    hide ReadFrame, Correct, Whole, Chunk, Frame;
    if i == Whole(|p|) {
      FrameReadsBack(s, st, i, true, Chunk(p, i), tail);
    } else {
      var more := Frames(s, st, p, i + 1);
      FrameReadsBack(s, st, i, false, Chunk(p, i), more + tail);
      Assoc(Frame(false, s.sealFrame(st, i, false, Chunk(p, i))), more, tail);
    }
  }

  lemma {:induction false} FramesReadBack(s: Suite, st: Stream, p: Bytes, i: nat, tail: Bytes)
    requires Correct(s) && |p| <= MAX_PLAIN && At(i) <= |p| && i <= Whole(|p|)
    ensures ReadFrames(s, st, Frames(s, st, p, i) + tail, i, p[..At(i)]) == Ok(Body(p, Whole(|p|), tail))
    decreases |p| - At(i)
  {
    var input, before := Frames(s, st, p, i) + tail, p[..At(i)];
    hide Correct;
    NextReadsBack(s, st, p, i, tail);
    if i == Whole(|p|) {
      LastFrame(s, st, input, i, before, Chunk(p, i), tail);
    } else {
      FramesReadBack(s, st, p, i + 1, tail);
      MoreFrames(s, st, input, i, before, Chunk(p, i), Frames(s, st, p, i + 1) + tail);
    }
  }

  /** What `build_dek_slot` and `build_envelope_intent` made: the records a reader with the
      same FKEK unlocks to the key and prefix they were made for. */
  ghost predicate MadeFor(s: Suite, m: Material, fkek: Bytes, dek: Bytes, prefix: Bytes, profile: Bytes) {
    var u := Unlock(s, fkek, m);
    u.Ok? && u.value.stream == StreamOf(s, m, dek, prefix)
    && BlobOf(u.value.intent, ProfileId) == Some(profile) && |profile| == ID_LEN
  }

  lemma HeadReadsBack(s: Suite, m: Material, intent: Value, signer: Signer, frames: nat, len: nat, profile: Bytes)
    requires Correct(s) && |signer.vk| == KEY_LEN
    requires BlobOf(intent, ProfileId) == Some(profile) && |profile| == ID_LEN
    ensures var tbs := HeadFields(s, m, signer.vk, frames, len);
            CheckHead(s, SignedHead(s, signer, tbs), m, intent, frames, len, s.keyId(signer.vk))
            == Ok(OpenOutcome(s.intentHash(m.intent), HeadHashOf(s, signer, tbs), frames, len, profile))
  {
    var tbs := HeadFields(s, m, signer.vk, frames, len);
    var v := Map(CoreFields(s, signer, tbs)[HeadHash := Blob(HeadHashOf(s, signer, tbs))]);
    hide SignatureFault, HeadHashOf, HeadCore, HeadTbs;
    assert CountFault(v, frames, len) == None;
    assert BindingFault(s, v, m) == None;
    SignatureReadsBack(s, signer, tbs);
  }

  lemma SignatureReadsBack(s: Suite, signer: Signer, tbs: Fields)
    requires Correct(s) && |signer.vk| == KEY_LEN && Signature !in tbs && HeadHash !in tbs
    requires BlobOf(Map(tbs), SignerKeyId) == Some(s.keyId(signer.vk)) && BlobOf(Map(tbs), VerifyingKey) == Some(signer.vk)
    ensures var v := Map(CoreFields(s, signer, tbs)[HeadHash := Blob(HeadHashOf(s, signer, tbs))]);
            SignatureFault(s, v, s.keyId(signer.vk)) == None && s.headHash(s.encode(HeadCore(v))) == HeadHashOf(s, signer, tbs)
  {
    var core := CoreFields(s, signer, tbs);
    var v := Map(core[HeadHash := Blob(HeadHashOf(s, signer, tbs))]);
    assert HeadTbs(v) == tbs;
    assert HeadCore(v) == core;
  }

  lemma PrologueReadsBack(s: Suite, m: Material, fkek: Bytes, tail: Bytes)
    requires |m.slot| <= U32_MAX && |m.intent| <= U32_MAX && Unlock(s, fkek, m).Ok?
    ensures var r := ReadPrologue(s, Prologue(m) + tail, fkek);
            if |m.slot| <= MAX_PROLOGUE_RECORD && |m.intent| <= MAX_PROLOGUE_RECORD
            then r == Ok(Opening(m, Unlock(s, fkek, m).value, tail)) else r.Err?
  {
    var input := Prologue(m) + tail;
    var rest := Record(m.slot) + (Record(m.intent) + tail);
    assert input[..|MAGIC|] == MAGIC;
    assert input[|MAGIC|..] == rest;
    RecordReadsBack(m.slot, Record(m.intent) + tail, MAX_PROLOGUE_RECORD, InSlot);
    RecordReadsBack(m.intent, tail, MAX_PROLOGUE_RECORD, InIntent);
  }

  /** Opening what was sealed gives back the plaintext and the same counts, whatever follows the
      head, exactly when the slot, intent and head records are within the reader's caps. */
  lemma OpenUndoesSeal(s: Suite, m: Material, fkek: Bytes, dek: Bytes, prefix: Bytes, signer: Signer, profile: Bytes,
                       p: Bytes, tail: Bytes)
    requires Correct(s) && |signer.vk| == KEY_LEN && MadeFor(s, m, fkek, dek, prefix, profile) && |p| <= MAX_PLAIN
    requires |m.slot| <= U32_MAX && |m.intent| <= U32_MAX && |SignedHead(s, signer, HeadOf(s, m, signer, p))| <= U32_MAX
    ensures var head := HeadOf(s, m, signer, p);
            var r := Parse(s, Sealed(s, m, dek, prefix, signer, p) + tail, fkek, s.keyId(signer.vk));
            if |m.slot| <= MAX_PROLOGUE_RECORD && |m.intent| <= MAX_PROLOGUE_RECORD && |SignedHead(s, signer, head)| <= MAX_HEAD
            then r == Ok((p, OpenOutcome(s.intentHash(m.intent), HeadHashOf(s, signer, head), Whole(|p|) + 1, |p|, profile)))
            else r.Err?
  {
    hide ReadRecord, ReadPrologue, ReadFrames, CheckHead, SignedHead, HeadFields, Unlock, Prologue, Frames, Record;
    var st, head := StreamOf(s, m, dek, prefix), SignedHead(s, signer, HeadOf(s, m, signer, p));
    var last := Record(head) + tail;
    var rest := Frames(s, st, p, 0) + last;
    assert Sealed(s, m, dek, prefix, signer, p) + tail == Prologue(m) + rest;
    PrologueReadsBack(s, m, fkek, rest);
    FramesReadBack(s, st, p, 0, last);
    assert p[..0] == [];
    RecordReadsBack(head, tail, MAX_HEAD, InHead);
    var intent := Unlock(s, fkek, m).value.intent;
    HeadReadsBack(s, m, intent, signer, Whole(|p|) + 1, |p|, profile);
    FrameCounts(p);
  }

  /** What an accepted container consists of. */
  lemma AcceptedParts(s: Suite, input: Bytes, fkek: Bytes, signerId: Bytes)
    returns (o: Opening, body: Body, outcome: OpenOutcome, v: Value)
    requires Parse(s, input, fkek, signerId).Ok?
    ensures ReadPrologue(s, input, fkek) == Ok(o) && ReadFrames(s, o.unlocked.stream, o.rest, 0, []) == Ok(body)
    ensures Parse(s, input, fkek, signerId) == Ok((body.plain, outcome))
    ensures SignatureFault(s, v, signerId).None? && BindingFault(s, v, o.material).None?
    ensures CountFault(v, outcome.frames, outcome.plaintextLen).None?
    ensures outcome.intentHash == s.intentHash(o.material.intent) && outcome.plaintextLen == |body.plain|
    ensures outcome.frames == (body.counter + 1) % (U32_MAX + 1)
  {
    hide ReadRecord, ReadFrame;
    o := ReadPrologue(s, input, fkek).value;
    body := ReadFrames(s, o.unlocked.stream, o.rest, 0, []).value;
    outcome := Parse(s, input, fkek, signerId).value.1;
    v := s.decode(ReadRecord(body.rest, MAX_HEAD, InHead).value.0).value;
  }

  // ------------------------------------------- what an ideal AEAD gives us ----

  /** One `seal` call: its stream and its whole plaintext. */
  datatype Use = Use(stream: Stream, plain: Bytes)

  /** A frame opens only as a frame of the one `seal` call its data key was used in: at its
      own counter, with its own final flag, in the same stream. */
  ghost predicate Ideal(s: Suite, uses: map<Bytes, Use>) {
    forall st, i, last, ct :: s.openFrame(st, i, last, ct).Some? ==>
      && st.dek in uses && uses[st.dek].stream == st
      && Issued(s, uses[st.dek], i, last, ct, s.openFrame(st, i, last, ct).value)
  }

  ghost predicate Issued(s: Suite, u: Use, i: nat, last: bool, ct: Bytes, plain: Bytes) {
    && i <= Whole(|u.plain|) && (last <==> i == Whole(|u.plain|))
    && plain == Chunk(u.plain, i) && ct == s.sealFrame(u.stream, i, last, plain)
  }

  /** A frame that opens at counter `i` is frame `i` of the one sealed stream, byte for byte. */
  lemma FrameIsGenuine(s: Suite, uses: map<Bytes, Use>, st: Stream, input: Bytes, i: nat)
    requires Ideal(s, uses) && ReadFrame(s, st, input, i).Ok?
    ensures st.dek in uses && uses[st.dek].stream == st
    ensures var p := uses[st.dek].plain; var f := ReadFrame(s, st, input, i).value;
            && i <= Whole(|p|) && (f.last <==> i == Whole(|p|)) && f.plain == Chunk(p, i)
            && input == Frame(f.last, s.sealFrame(st, i, f.last, f.plain)) + f.rest
  {
    hide FromBE, ToBE, Chunk;
    RecordIsExact(input[1..], MAX_FRAME, InFrame);
    var ct := ReadRecord(input[1..], MAX_FRAME, InFrame).value.0;
    var f := ReadFrame(s, st, input, i).value;
    assert s.openFrame(st, i, f.last, ct) == Some(f.plain);
    assert Issued(s, uses[st.dek], i, f.last, ct, f.plain);
    assert input == [input[0]] + input[1..];
    Assoc([input[0]], Record(ct), f.rest);
  }

  lemma {:induction false} FramesAreWhole(s: Suite, uses: map<Bytes, Use>, st: Stream, input: Bytes, i: nat, before: Bytes)
    requires Ideal(s, uses) && ReadFrames(s, st, input, i, before).Ok?
    requires st.dek in uses ==> At(i) <= |uses[st.dek].plain| && before == uses[st.dek].plain[..At(i)]
    ensures st.dek in uses && uses[st.dek].stream == st
    ensures var p := uses[st.dek].plain; var body := ReadFrames(s, st, input, i, before).value;
            body.plain == p && body.counter == Whole(|p|) && At(i) <= |p| && input == Frames(s, st, p, i) + body.rest
    decreases |input|
  {
    hide ReadFrame, Frame, Ideal;
    FrameIsGenuine(s, uses, st, input, i);
    var f, p := ReadFrame(s, st, input, i).value, uses[st.dek].plain;
    if f.last {
      assert p[..At(i)] + Chunk(p, i) == p;
    } else {
      TakeNext(p, i);
      FramesAreWhole(s, uses, st, f.rest, i + 1, before + f.plain);
      Assoc(Frame(false, s.sealFrame(st, i, false, f.plain)), Frames(s, st, p, i + 1),
            ReadFrames(s, st, f.rest, i + 1, before + f.plain).value.rest);
    }
  }

  lemma TakeNext(p: Bytes, i: nat)
    requires i < Whole(|p|)
    ensures At(i + 1) <= |p| && p[..At(i)] + Chunk(p, i) == p[..At(i + 1)]
  {
  }

  /** Whatever byte string `open` accepts, what it wrote is the whole plaintext of one `seal`
      call, and the frames it read are exactly that call's frames: nothing truncated,
      reordered, duplicated or spliced. */
  lemma OpenGivesOneWholePlaintext(s: Suite, uses: map<Bytes, Use>, input: Bytes, fkek: Bytes, signerId: Bytes)
    requires Ideal(s, uses) && Parse(s, input, fkek, signerId).Ok?
    ensures var (plain, outcome) := Parse(s, input, fkek, signerId).value;
            exists dek ::
              && dek in uses && uses[dek].plain == plain && uses[dek].stream.intentHash == outcome.intentHash
              && outcome.plaintextLen == |plain| && outcome.frames == Whole(|plain|) + 1
              && (exists m, rest :: input == Prologue(m) + Frames(s, uses[dek].stream, plain, 0) + rest
                                    && s.intentHash(m.intent) == outcome.intentHash)
  {
    hide Parse, ReadFrames, ReadPrologue, Frames, Prologue, Issued, SignatureFault, CountFault, BindingFault;
    var o, body, outcome, _ := AcceptedParts(s, input, fkek, signerId);
    var st := o.unlocked.stream;
    PrologueIsExact(s, input, fkek);
    FramesAreWhole(s, uses, st, o.rest, 0, []);
    FrameCounts(body.plain);
    ReadFramesCap(s, st, o.rest, 0, []);
    Assoc(Prologue(o.material), Frames(s, st, body.plain, 0), body.rest);
    assert input == Prologue(o.material) + Frames(s, uses[st.dek].stream, body.plain, 0) + body.rest;
  }

  lemma {:induction false} ReadFramesCap(s: Suite, st: Stream, input: Bytes, i: nat, before: Bytes)
    requires ReadFrames(s, st, input, i, before).Ok?
    ensures |ReadFrames(s, st, input, i, before).value.plain| <= MAX_PLAIN
    decreases |input|
  {
    var f := ReadFrame(s, st, input, i).value;
    if !f.last {
      ReadFramesCap(s, st, f.rest, i + 1, before + f.plain);
    }
  }

  lemma StreamIsOfTheIntent(s: Suite, fkek: Bytes)
    ensures forall m | Unlock(s, fkek, m).Ok? :: Unlock(s, fkek, m).value.stream.intentHash == s.intentHash(m.intent)
  {
  }

  lemma PrologueIsExact(s: Suite, input: Bytes, fkek: Bytes)
    requires ReadPrologue(s, input, fkek).Ok?
    ensures var o := ReadPrologue(s, input, fkek).value;
            && input == Prologue(o.material) + o.rest
            && o.unlocked.stream.intentHash == s.intentHash(o.material.intent)
  {
    StreamIsOfTheIntent(s, fkek);
    hide ReadRecord, Unlock, Record;
    var rest := input[|MAGIC|..];
    assert input == input[..|MAGIC|] + rest;
    RecordIsExact(rest, MAX_PROLOGUE_RECORD, InSlot);
    var slot := ReadRecord(rest, MAX_PROLOGUE_RECORD, InSlot).value;
    RecordIsExact(slot.1, MAX_PROLOGUE_RECORD, InIntent);
    var intent := ReadRecord(slot.1, MAX_PROLOGUE_RECORD, InIntent).value;
    assert MAGIC + (Record(slot.0) + (Record(intent.0) + intent.1)) == (MAGIC + Record(slot.0) + Record(intent.0)) + intent.1;
  }

  // ---------------------------------------------------- the signed head ----

  /** Under the expected key id only the fields in `signed` were ever signed. */
  ghost predicate OnlySigned(s: Suite, signerId: Bytes, signed: set<Fields>) {
    forall vk, m, sig :: s.keyId(vk) == signerId && s.verify(vk, m, sig) ==> exists f :: f in signed && m == s.encode(f)
  }

  /** What `open` accepts carries the prologue, the frame count and the length of one head the
      expected signer signed: a prologue swapped for another container's is refused. */
  lemma OpenIsOneSignedHead(s: Suite, signed: set<Fields>, input: Bytes, fkek: Bytes, signerId: Bytes)
    requires OnlySigned(s, signerId, signed) && (forall f :: s.decode(s.encode(f)) == Some(Map(f)))
    requires Parse(s, input, fkek, signerId).Ok?
    ensures var (plain, outcome) := Parse(s, input, fkek, signerId).value;
            exists f, m, rest ::
              && f in signed && input == Prologue(m) + rest
              && BlobOf(Map(f), SlotBytes) == Some(m.slot) && BlobOf(Map(f), IntentBytes) == Some(m.intent)
              && UintOf(Map(f), FrameCount) == Some(outcome.frames) && UintOf(Map(f), PlaintextLen) == Some(|plain|)
  {
    hide Parse, ReadFrames, ReadPrologue, Frames, Prologue;
    var o, body, outcome, v := AcceptedParts(s, input, fkek, signerId);
    PrologueIsExact(s, input, fkek);
    var tbs := v.fields - {Signature, HeadHash};
    var f := SignedFields(s, signed, v, signerId);
    assert input == Prologue(o.material) + o.rest;
    assert BlobOf(v, SlotBytes) == Some(o.material.slot) && BlobOf(v, IntentBytes) == Some(o.material.intent);
  }

  lemma SignedFields(s: Suite, signed: set<Fields>, v: Value, signerId: Bytes) returns (f: Fields)
    requires OnlySigned(s, signerId, signed) && (forall f :: s.decode(s.encode(f)) == Some(Map(f)))
    requires SignatureFault(s, v, signerId).None?
    ensures v.Map? && f in signed && f == v.fields - {Signature, HeadHash}
  {
    var tbs := v.fields - {Signature, HeadHash};
    f :| f in signed && s.encode(tbs) == s.encode(f);
    assert s.decode(s.encode(tbs)) == Some(Map(tbs)) && s.decode(s.encode(f)) == Some(Map(f));
  }

  // ------------------------------------------------- the caps an intent declares ----

  /** What an accepted container declares of itself: its head's length is that of its plaintext,
      so a reader stays within the intent's declared plaintext cap exactly if the head does. */
  lemma WithinDeclaredPlaintext(s: Suite, input: Bytes, fkek: Bytes, signerId: Bytes, cap: nat)
    returns (o: Opening, head: Value)
    requires Parse(s, input, fkek, signerId).Ok?
    ensures ReadPrologue(s, input, fkek) == Ok(o)
    ensures exists body, bytes, rest ::
              && ReadFrames(s, o.unlocked.stream, o.rest, 0, []) == Ok(body)
              && ReadRecord(body.rest, MAX_HEAD, InHead) == Ok((bytes, rest)) && s.decode(bytes) == Some(head)
    ensures UintOf(head, PlaintextLen).Some?
    ensures |Parse(s, input, fkek, signerId).value.0| <= cap <==> UintOf(head, PlaintextLen).value <= cap
  {
    hide ReadRecord, ReadFrame, ReadFrames, ReadPrologue, SignatureFault, BindingFault;
    var body;
    o := ReadPrologue(s, input, fkek).value;
    body := ReadFrames(s, o.unlocked.stream, o.rest, 0, []).value;
    var record := ReadRecord(body.rest, MAX_HEAD, InHead).value;
    head := s.decode(record.0).value;
    assert ReadRecord(body.rest, MAX_HEAD, InHead) == Ok((record.0, record.1));
  }

  /** Nothing reads the declared caps: with any working primitives, all containers that open under
      an intent stay within its declared plaintext cap exactly if it declares no less than the
      format's own. */
  lemma DeclaredPlaintextCapIsNotRead(s: Suite, m: Material, fkek: Bytes, dek: Bytes, prefix: Bytes, signer: Signer,
                                      profile: Bytes, cap: nat)
    requires Correct(s) && |signer.vk| == KEY_LEN && MadeFor(s, m, fkek, dek, prefix, profile)
    requires UintOf(Unlock(s, fkek, m).value.intent, MaxPlaintext) == Some(cap)
    requires |m.slot| <= MAX_PROLOGUE_RECORD && |m.intent| <= MAX_PROLOGUE_RECORD
    requires forall p | |p| <= MAX_PLAIN :: |SignedHead(s, signer, HeadOf(s, m, signer, p))| <= MAX_HEAD
    ensures forall p: Bytes | |p| <= MAX_PLAIN :: Accepts(s, m, fkek, dek, prefix, signer, p)
    ensures (forall p: Bytes | |p| <= MAX_PLAIN && Accepts(s, m, fkek, dek, prefix, signer, p) :: |p| <= cap) <==> cap >= MAX_PLAIN
  {
    hide Unlock, Correct, HeadOf, SignedHead, Accepts;
    forall p: Bytes | |p| <= MAX_PLAIN ensures Accepts(s, m, fkek, dek, prefix, signer, p) {
      SealedIsAccepted(s, m, fkek, dek, prefix, signer, profile, p);
    }
    if cap < MAX_PLAIN {
      var over: Bytes := seq(cap + 1, _ => 0);
      assert Accepts(s, m, fkek, dek, prefix, signer, over) && |over| > cap;
    }
  }

  /** The sealed container of `p` opens to `p`. */
  ghost predicate Accepts(s: Suite, m: Material, fkek: Bytes, dek: Bytes, prefix: Bytes, signer: Signer, p: Bytes) {
    var r := Parse(s, Sealed(s, m, dek, prefix, signer, p), fkek, s.keyId(signer.vk));
    r.Ok? && r.value.0 == p
  }

  lemma SealedIsAccepted(s: Suite, m: Material, fkek: Bytes, dek: Bytes, prefix: Bytes, signer: Signer, profile: Bytes, p: Bytes)
    requires Correct(s) && |signer.vk| == KEY_LEN && MadeFor(s, m, fkek, dek, prefix, profile) && |p| <= MAX_PLAIN
    requires |m.slot| <= MAX_PROLOGUE_RECORD && |m.intent| <= MAX_PROLOGUE_RECORD
    requires |SignedHead(s, signer, HeadOf(s, m, signer, p))| <= MAX_HEAD
    ensures Accepts(s, m, fkek, dek, prefix, signer, p)
  {
    hide Correct, Parse, Sealed, MadeFor, HeadOf, SignedHead;
    OpenUndoesSeal(s, m, fkek, dek, prefix, signer, profile, p, []);
    var c := Sealed(s, m, dek, prefix, signer, p);
    assert c + [] == c;
  }

  function Zeroed(n: nat): (b: Bytes)
    ensures |b| == n
  {
    seq(n, _ => 0)
  }

  /** The three records of a one-byte container whose intent declares a plaintext cap of 0. */
  const SAMPLE_SLOT: Fields := map[SlotContext := Blob([]), WrapNonce := Blob(Zeroed(12)), WrappedDek := Blob([])]
  const SAMPLE_INTENT: Fields := map[NoncePrefix := Blob(Zeroed(7)), ProfileId := Blob(Zeroed(16)), MaxPlaintext := Uint(0)]
  const SAMPLE_HEAD: Fields :=
    map[Signature := Blob([]), SignerKeyId := Blob([]), VerifyingKey := Blob(Zeroed(32)), HeadHash := Blob([]),
        FrameCount := Uint(1), PlaintextLen := Uint(1), IntentHash := Blob([]), SlotBytes := Blob([1]), IntentBytes := Blob([2])]

  /** Primitives under which the bytes 1, 2 and 3 encode those records and a frame is its plaintext. */
  function SampleSuite(): Suite {
    Suite(
      b => if b == [1] then Some(Map(SAMPLE_SLOT)) else if b == [2] then Some(Map(SAMPLE_INTENT))
           else if b == [3] then Some(Map(SAMPLE_HEAD)) else None,
      _ => [], _ => [], _ => [], (a, b, c, d) => Some([]), (st, i, last, p) => p, (st, i, last, ct) => Some(ct),
      _ => [], (signer, m) => [], (vk, m, sig) => true)
  }

  function SampleContainer(): Bytes {
    Prologue(Material([1], [2])) + Frame(true, [9]) + Record([3])
  }

  /** An accepted container whose plaintext is longer than its intent declares. */
  lemma AContainerOverItsDeclaredCap()
    ensures var s := SampleSuite();
            && Parse(s, SampleContainer(), [], []).Ok? && Parse(s, SampleContainer(), [], []).value.0 == [9]
            && UintOf(s.decode([2]).value, MaxPlaintext) == Some(0)
  {
    hide Unlock, ReadPrologue, ReadFrames, ReadHead, CheckHead, SampleSuite, SampleContainer, Zeroed;
    var s, m := SampleSuite(), Material([1], [2]);
    SampleUnlocks();
    SamplePrologue();
    SampleHead();
    SampleIntent();
    SampleFrame(s, Unlock(s, [], m).value.stream, Record([3]));
  }

  lemma SampleIntent()
    ensures SampleSuite().decode([2]) == Some(Map(SAMPLE_INTENT)) && UintOf(Map(SAMPLE_INTENT), MaxPlaintext) == Some(0)
  {
  }

  lemma SamplePrologue()
    requires Unlock(SampleSuite(), [], Material([1], [2])).Ok?
    ensures var s, m := SampleSuite(), Material([1], [2]);
            ReadPrologue(s, SampleContainer(), []) == Ok(Opening(m, Unlock(s, [], m).value, Frame(true, [9]) + Record([3])))
  {
    hide Unlock, ReadPrologue, SampleSuite, Frame, Record, Prologue;
    var m := Material([1], [2]);
    PrologueReadsBack(SampleSuite(), m, [], Frame(true, [9]) + Record([3]));
    Assoc(Prologue(m), Frame(true, [9]), Record([3]));
  }

  lemma SampleHead()
    ensures ReadHead(SampleSuite(), Record([3]), Material([1], [2]), Map(SAMPLE_INTENT), 1, 1, [])
         == Ok(OpenOutcome([], [], 1, 1, Zeroed(16)))
  {
    hide CheckHead, ReadRecord, SampleSuite, Zeroed, Record;
    SampleHeadPasses();
    RecordReadsBack([3], [], MAX_HEAD, InHead);
    assert Record([3]) + [] == Record([3]);
  }

  lemma SampleUnlocks()
    ensures var u := Unlock(SampleSuite(), [], Material([1], [2]));
            u.Ok? && u.value.intent == Map(SAMPLE_INTENT)
  {
  }

  lemma SampleHeadPasses()
    ensures CheckHead(SampleSuite(), [3], Material([1], [2]), Map(SAMPLE_INTENT), 1, 1, [])
         == Ok(OpenOutcome([], [], 1, 1, Zeroed(16)))
  {
    var s, v := SampleSuite(), Map(SAMPLE_HEAD);
    SampleHeadIsFaultless();
    SampleIntent();
    assert s.decode([3]) == Some(v) && BlobOf(Map(SAMPLE_INTENT), ProfileId) == Some(Zeroed(16));
    hide SignatureFault, CountFault, BindingFault, Zeroed;
  }

  lemma SampleHeadIsFaultless()
    ensures SignatureFault(SampleSuite(), Map(SAMPLE_HEAD), []) == None && CountFault(Map(SAMPLE_HEAD), 1, 1) == None
    ensures BindingFault(SampleSuite(), Map(SAMPLE_HEAD), Material([1], [2])) == None
  {
  }

  lemma SampleFrame(s: Suite, st: Stream, tail: Bytes)
    requires s == SampleSuite()
    ensures ReadFrames(s, st, Frame(true, [9]) + tail, 0, []) == Ok(Body([9], 0, tail))
  {
    var input := Frame(true, [9]) + tail;
    RecordReadsBack([9], tail, MAX_FRAME, InFrame);
    assert input[0] == 1 && input[1..] == Record([9]) + tail;
    assert [] + [9] == [9];
  }

  /** The same of the declared ciphertext cap: the frames of all plaintexts within the format's
      cap fit it exactly if it allows the largest, and the constant `seal` declares does. */
  lemma DeclaredCiphertextCap(s: Suite, st: Stream, cap: nat)
    requires Tagged(s)
    ensures (forall p: Bytes | |p| <= MAX_PLAIN :: |Frames(s, st, p, 0)| <= cap) <==> cap >= MAX_PLAIN + 0x1_0000 * (TAG + 5)
    ensures MAX_PLAIN + 0x1_0000 * (TAG + 5) <= MAX_CIPHER
  {
    hide Frames;
    forall p: Bytes | |p| <= MAX_PLAIN ensures |Frames(s, st, p, 0)| <= MAX_PLAIN + 0x1_0000 * (TAG + 5) {
      FramesSize(s, st, p, 0);
    }
    var largest: Bytes := seq(MAX_PLAIN, _ => 0);
    FramesSize(s, st, largest, 0);
    assert |largest| <= MAX_PLAIN;
  }
}
