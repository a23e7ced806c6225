/** The fixed layout of a consensus state, with its decoder. */
module ConsensusStates {
  import opened Machine
  import opened Bytewise

  type Key = b: Bytes | |b| == 32 witness seq(32, _ => 0)

  /** A validator; None stands for a public key that is not an ed25519 key. */
  datatype Validator = Validator(pubKey: Option<Key>, votingPower: Int64)

  datatype ConsensusState = ConsensusState(chainID: Bytes, height: Uint64, appHash: Bytes,
      curValidatorSetHash: Bytes, validators: seq<Validator>)

  datatype Encoded = Encoded(bytes: Bytes) | TooManyValidators | ChainIDTooLong | InvalidPubKey

  const MAX_LENGTH: Uint64 := 32 * (128 - 1)

  /** The length in uint64 arithmetic. */
  function SerializeLength(validators: nat): Uint64 {
    Add64(32 + 8 + 32 + 32, ToUint64(validators * (32 + 8)))
  }

  /** Longer slices of pointers than this do not exist. */
  const SLICE_LIMIT := 0x400_0000_0000_0000

  /** copy into a zeroed field of fixed width: cut or padded with zero bytes. */
  function Fit(bytes: Bytes, width: nat): Bytes
    ensures |Fit(bytes, width)| == width
  {
    if |bytes| >= width then bytes[..width] else bytes + seq(width - |bytes|, _ => 0)
  }

  predicate Ed25519(validators: seq<Validator>) {
    forall i :: 0 <= i < |validators| ==> validators[i].pubKey.Some?
  }

  function EncodeValidator(v: Validator): Bytes
    requires v.pubKey.Some?
    ensures |EncodeValidator(v)| == 40
  {
    v.pubKey.value + BigEndian(ToUint64(v.votingPower), 8)
  }

  function EncodeValidators(validators: seq<Validator>): Bytes
    requires Ed25519(validators)
    ensures |EncodeValidators(validators)| == 40 * |validators|
  {
    if validators == [] then []
    else EncodeValidators(validators[..|validators| - 1]) + EncodeValidator(validators[|validators| - 1])
  }

  function EncodeHead(cs: ConsensusState): Bytes
    ensures |EncodeHead(cs)| == 104
  {
    Fit(cs.chainID, 32) + BigEndian(cs.height, 8) + Fit(cs.appHash, 32) + Fit(cs.curValidatorSetHash, 32)
  }

  function Encode(cs: ConsensusState): Encoded {
    if SerializeLength(|cs.validators|) > MAX_LENGTH then TooManyValidators
    else if |cs.chainID| > 32 then ChainIDTooLong
    else if !Ed25519(cs.validators) then InvalidPubKey
    else Encoded(EncodeHead(cs) + EncodeValidators(cs.validators))
  }

  /** The size check passes exactly for at most 99 validators. */
  lemma SizeCheckExactly(n: nat)
    requires n < SLICE_LIMIT
    ensures SerializeLength(n) == 104 + 40 * n
    ensures SerializeLength(n) <= MAX_LENGTH <==> n <= 99
  {
  }

  /** Which check fails first, if any. */
  lemma EncodeFailsExactly(cs: ConsensusState)
    requires |cs.validators| < SLICE_LIMIT
    ensures Encode(cs) == TooManyValidators <==> |cs.validators| > 99
    ensures Encode(cs) == ChainIDTooLong <==> |cs.validators| <= 99 && |cs.chainID| > 32
    ensures Encode(cs) == InvalidPubKey <==>
            && |cs.validators| <= 99 && |cs.chainID| <= 32
            && exists i :: 0 <= i < |cs.validators| && cs.validators[i].pubKey == None
    ensures Encode(cs).Encoded? ==> |Encode(cs).bytes| == 104 + 40 * |cs.validators|
  {
    SizeCheckExactly(|cs.validators|);
    hide SerializeLength, EncodeHead, EncodeValidators;
  }

  method PutFitted(buffer: array<Byte>, pos: nat, bytes: Bytes, width: nat)
    requires pos + width <= buffer.Length
    requires forall k :: pos <= k < buffer.Length ==> buffer[k] == 0
    modifies buffer
    ensures buffer[..pos + width] == old(buffer[..pos]) + Fit(bytes, width)
    ensures forall k :: pos + width <= k < buffer.Length ==> buffer[k] == 0
  {
    var n := if |bytes| < width then |bytes| else width;
    for i := 0 to n
      invariant forall k :: 0 <= k < pos ==> buffer[k] == old(buffer[k])
      invariant forall k :: pos <= k < pos + i ==> buffer[k] == bytes[k - pos]
      invariant forall k :: pos + i <= k < buffer.Length ==> buffer[k] == 0
    {
      buffer[pos + i] := bytes[i];
    }
  }

  lemma FitsExactly(b: Bytes)
    ensures Fit(b, |b|) == b
  {
  }

  method PutHead(buffer: array<Byte>, cs: ConsensusState) returns (pos: nat)
    requires buffer.Length >= 104 && |cs.chainID| <= 32
    requires forall k :: 0 <= k < buffer.Length ==> buffer[k] == 0
    modifies buffer
    ensures pos == 104 && buffer[..pos] == EncodeHead(cs)
    ensures forall k :: pos <= k < buffer.Length ==> buffer[k] == 0
  {
    hide Fit, BigEndian;
    pos := 0;
    PutFitted(buffer, pos, cs.chainID, 32);
    pos := pos + 32;
    FitsExactly(BigEndian(cs.height, 8));
    PutFitted(buffer, pos, BigEndian(cs.height, 8), 8);
    pos := pos + 8;
    PutFitted(buffer, pos, cs.appHash, 32);
    pos := pos + 32;
    PutFitted(buffer, pos, cs.curValidatorSetHash, 32);
    pos := pos + 32;
  }

  method PutValidator(buffer: array<Byte>, pos0: nat, validator: Validator) returns (pos: nat)
    requires pos0 + 40 <= buffer.Length && validator.pubKey.Some?
    requires forall k :: pos0 <= k < buffer.Length ==> buffer[k] == 0
    modifies buffer
    ensures pos == pos0 + 40 && buffer[..pos] == old(buffer[..pos0]) + EncodeValidator(validator)
    ensures forall k :: pos <= k < buffer.Length ==> buffer[k] == 0
  {
    hide Fit, BigEndian, ToUint64;
    FitsExactly(validator.pubKey.value);
    FitsExactly(BigEndian(ToUint64(validator.votingPower), 8));
    pos := pos0;
    PutFitted(buffer, pos, validator.pubKey.value, 32);
    pos := pos + 32;
    PutFitted(buffer, pos, BigEndian(ToUint64(validator.votingPower), 8), 8);
    pos := pos + 8;
  }

  /** Every write lies inside the buffer, and together they fill it. */
  method EncodeConsensusState(cs: ConsensusState) returns (result: Encoded)
    requires |cs.validators| < SLICE_LIMIT
    ensures result == Encode(cs)
  {
    hide ToUint64, SerializeLength, EncodeHead, EncodeValidator;
    var validatorSetLength := |cs.validators|;
    var serializeLength := SerializeLength(validatorSetLength);
    SizeCheckExactly(validatorSetLength);
    if serializeLength > MAX_LENGTH { return TooManyValidators; }
    var encodingBytes := new Byte[serializeLength](_ => 0);
    if |cs.chainID| > 32 { return ChainIDTooLong; }
    var pos := PutHead(encodingBytes, cs);
    for index := 0 to validatorSetLength
      invariant pos == 104 + 40 * index && Ed25519(cs.validators[..index])
      invariant encodingBytes[..pos] == EncodeHead(cs) + EncodeValidators(cs.validators[..index])
      invariant forall k :: pos <= k < encodingBytes.Length ==> encodingBytes[k] == 0
    {
      var validator := cs.validators[index];
      assert cs.validators[..index + 1][..index] == cs.validators[..index];
      if validator.pubKey.None? { return InvalidPubKey; }
      pos := PutValidator(encodingBytes, pos, validator);
    }
    assert cs.validators[..validatorSetLength] == cs.validators;
    assert pos == encodingBytes.Length;
    result := Encoded(encodingBytes[..]);
  }

  // Decoding by the documented layout.

  function StripZeros(b: Bytes): Bytes {
    if b != [] && b[|b| - 1] == 0 then StripZeros(b[..|b| - 1]) else b
  }

  function DecodeValidators(b: Bytes): seq<Validator> {
    if |b| < 40 then []
    else
      var n := |b| - 40;
      DecodeValidators(b[..n]) + [Validator(Some(b[n..n + 32]), ToInt64(FromBigEndian(b[n + 32..])))]
  }

  function Decode(b: Bytes): ConsensusState
    requires |b| >= 104
  {
    ConsensusState(StripZeros(b[..32]), ToUint64(FromBigEndian(b[32..40])), b[40..72], b[72..104],
        DecodeValidators(b[104..]))
  }

  /** States whose fields fill the layout without loss. */
  ghost predicate Proper(cs: ConsensusState) {
    && |cs.chainID| <= 32 && (cs.chainID != [] ==> cs.chainID[|cs.chainID| - 1] != 0)
    && |cs.appHash| == 32 && |cs.curValidatorSetHash| == 32
    && Ed25519(cs.validators) && |cs.validators| <= 99
  }

  lemma {:induction false} StripsPadding(b: Bytes, n: nat)
    requires b != [] ==> b[|b| - 1] != 0
    ensures StripZeros(b + seq(n, _ => 0)) == b
  {
    var padded := b + seq(n, _ => 0);
    if n == 0 {
      assert padded == b;
    } else {
      assert padded[..|padded| - 1] == b + seq(n - 1, _ => 0);
      StripsPadding(b, n - 1);
    }
  }

  lemma SignedRoundTrip(p: Int64)
    ensures ToInt64(ToUint64(p)) == p
  {
  }

  lemma PowerRoundTrip(p: Int64)
    ensures ToInt64(FromBigEndian(BigEndian(ToUint64(p), 8))) == p
  {
    hide FromBigEndian, BigEndian;
    WordRanges();
    hide Range;
    BigEndianRoundTrip(ToUint64(p), 8);
    SignedRoundTrip(p);
  }

  /** The last validator of an encoding is read back, and the others are left. */
  lemma LastValidator(front: Bytes, v: Validator)
    requires v.pubKey.Some?
    ensures var b := front + EncodeValidator(v);
            && b[..|b| - 40] == front && b[|b| - 40..|b| - 8] == v.pubKey.value
            && ToInt64(FromBigEndian(b[|b| - 8..])) == v.votingPower
  {
    hide BigEndian, FromBigEndian, ToUint64, ToInt64;
    var b := front + EncodeValidator(v);
    assert b[|b| - 8..] == BigEndian(ToUint64(v.votingPower), 8);
    PowerRoundTrip(v.votingPower);
  }

  lemma {:induction false} ValidatorsRoundTrip(validators: seq<Validator>)
    requires Ed25519(validators)
    ensures DecodeValidators(EncodeValidators(validators)) == validators
  {
    hide BigEndian, FromBigEndian, ToUint64, ToInt64, EncodeValidator;
    if validators == [] {
    } else {
      var n := |validators| - 1;
      ValidatorsRoundTrip(validators[..n]);
      LastValidator(EncodeValidators(validators[..n]), validators[n]);
    }
  }

  lemma FourParts(a: Bytes, b: Bytes, c: Bytes, d: Bytes)
    requires |a| == 32 && |b| == 8 && |c| == 32 && |d| == 32
    ensures var all := a + b + c + d;
            all[..32] == a && all[32..40] == b && all[40..72] == c && all[72..104] == d
  {
    var all := a + b + c + d;
    assert all[..32] == a;
    assert all[32..40] == b;
    assert all[40..72] == c;
    assert all[72..104] == d;
  }

  lemma HeadParts(cs: ConsensusState)
    requires |cs.appHash| == 32 && |cs.curValidatorSetHash| == 32
    ensures var head := EncodeHead(cs);
            && head[..32] == Fit(cs.chainID, 32) && head[32..40] == BigEndian(cs.height, 8)
            && head[40..72] == cs.appHash && head[72..104] == cs.curValidatorSetHash
  {
    hide BigEndian, Fit;
    FitsExactly(cs.appHash);
    FitsExactly(cs.curValidatorSetHash);
    FourParts(Fit(cs.chainID, 32), BigEndian(cs.height, 8), cs.appHash, cs.curValidatorSetHash);
  }

  lemma HeightRoundTrip(x: Uint64)
    ensures ToUint64(FromBigEndian(BigEndian(x, 8))) == x
  {
    hide FromBigEndian, BigEndian;
    WordRanges();
    hide Range;
    BigEndianRoundTrip(x, 8);
  }

  lemma FitStrips(b: Bytes)
    requires |b| <= 32 && (b != [] ==> b[|b| - 1] != 0)
    ensures StripZeros(Fit(b, 32)) == b
  {
    StripsPadding(b, 32 - |b|);
    assert |b| == 32 ==> b[..32] == b + seq(0, _ => 0);
  }

  /** Decoding inverts encoding on every proper state. */
  lemma EncodingRoundTrip(cs: ConsensusState)
    requires Proper(cs)
    ensures Encode(cs).Encoded? && |Encode(cs).bytes| == 104 + 40 * |cs.validators| && Decode(Encode(cs).bytes) == cs
  {
    hide BigEndian, FromBigEndian, EncodeHead, EncodeValidators, DecodeValidators, StripZeros, ToUint64, Fit;
    SizeCheckExactly(|cs.validators|);
    var head, tail := EncodeHead(cs), EncodeValidators(cs.validators);
    var b := head + tail;
    HeadParts(cs);
    HeightRoundTrip(cs.height);
    FitStrips(cs.chainID);
    ValidatorsRoundTrip(cs.validators);
    assert b[..32] == head[..32] && b[32..40] == head[32..40] && b[40..72] == head[40..72]
        && b[72..104] == head[72..104];
    assert b[104..] == tail;
  }

  /** Hence different proper states have different encodings. */
  lemma EncodingIsInjective(cs: ConsensusState, other: ConsensusState)
    requires Proper(cs) && Proper(other) && Encode(cs) == Encode(other)
    ensures cs == other
  {
    EncodingRoundTrip(cs);
    EncodingRoundTrip(other);
  }

  /** What the layout can tell about a state. */
  function Visible(cs: ConsensusState): ConsensusState {
    cs.(chainID := StripZeros(cs.chainID), appHash := Fit(cs.appHash, 32),
        curValidatorSetHash := Fit(cs.curValidatorSetHash, 32))
  }

  lemma {:induction false} StrippedFitsAlike(b: Bytes)
    requires |b| <= 32
    ensures Fit(StripZeros(b), 32) == Fit(b, 32)
    ensures |StripZeros(b)| <= |b| && (StripZeros(b) != [] ==> StripZeros(b)[|StripZeros(b)| - 1] != 0)
  {
    if b == [] || b[|b| - 1] != 0 {
    } else {
      StrippedFitsAlike(b[..|b| - 1]);
      assert Fit(b[..|b| - 1], 32) == Fit(b, 32);
    }
  }

  lemma VisibleIsProper(cs: ConsensusState)
    requires Encode(cs).Encoded? && |cs.validators| < SLICE_LIMIT
    ensures Proper(Visible(cs)) && Encode(Visible(cs)) == Encode(cs)
  {
    hide BigEndian, EncodeValidators, StripZeros, ToUint64;
    SizeCheckExactly(|cs.validators|);
    StrippedFitsAlike(cs.chainID);
    FitsExactly(Fit(cs.appHash, 32));
    FitsExactly(Fit(cs.curValidatorSetHash, 32));
  }

  /** Without properness encodings collide, and this is exactly when: trailing zero bytes of the
      chain ID and the cut or padded parts of the hashes are lost, nothing else. */
  lemma EncodingCollidesExactly(cs: ConsensusState, other: ConsensusState)
    requires Encode(cs).Encoded? && Encode(other).Encoded?
    requires |cs.validators| < SLICE_LIMIT && |other.validators| < SLICE_LIMIT
    ensures Encode(cs) == Encode(other) <==> Visible(cs) == Visible(other)
  {
    VisibleIsProper(cs);
    VisibleIsProper(other);
    hide Encode, Visible;
    if Encode(cs) == Encode(other) {
      EncodingIsInjective(Visible(cs), Visible(other));
    }
  }
}
