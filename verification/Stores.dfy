/** Binance Chain's two stores as its nodes answer queries by key, and what the keys of the relayer find in them. */
module Stores {
  import opened Machine
  import opened Bytewise
  import opened Keys
  import opened Chains

  /** None stands for a nil value. */
  datatype Response = NoResponse | Response(value: Option<Bytes>)

  /** The value of the sequence store under a key, after block `height`; `dest` is the chain the packages go to. */
  function SequenceValue(store: Store, dest: Uint16, key: Bytes, height: int): Option<Bytes> {
    if |key| == 4 && key[0] == 0xf0 && FromBigEndian(key[1..3]) == dest then
      var count := CountAt(Log(store, key[3]), height);
      if count == 0 then None else Some(BigEndian(ToUint64(count), 8))
    else None
  }

  /** The value of the package store under a key, after block `height`; empty when there is none. */
  function PackageValue(store: Store, source: Uint16, dest: Uint16, key: Bytes, height: int): Bytes {
    if |key| == 14 && key[0] == 0x00 && FromBigEndian(key[1..3]) == source && FromBigEndian(key[3..5]) == dest
    then Lookup(store, key[5], FromBigEndian(key[6..]), height)
    else []
  }

  function QuerySequenceKey(env: Env, w: World, dest: Uint16, key: Bytes, height: Uint64): (Response, World) {
    var w1 := Await(env, w);
    match VerdictOf(env, w)
    case Failed => (NoResponse, w1)
    case Blank => (Response(None), w1)
    case Stale(x) => (Response(Some(BigEndian(x, 8))), w1)
    case _ => (Response(SequenceValue(w1.store, dest, key, ToInt64(height))), w1)
  }

  function QueryPackageKey(env: Env, w: World, source: Uint16, dest: Uint16, key: Bytes, height: Uint64):
      (Option<Bytes>, World) {
    var w1 := Await(env, w);
    match VerdictOf(env, w)
    case Failed => (None, w1)
    case Blank => (Some([]), w1)
    case _ => (Some(PackageValue(w1.store, source, dest, key, ToInt64(height))), w1)
  }

  /** A built package key finds the package it names, and nothing in the store of another pair of chains. */
  lemma PackageUnderKey(store: Store, source: Uint16, dest: Uint16, s: Uint16, d: Uint16, channel: Int8,
      sequence: Uint64, height: int)
    ensures PackageValue(store, source, dest, PackageKey(s, d, channel, sequence), height) ==
            if s == source && d == dest then Lookup(store, ToByte(channel), sequence, height) else []
  {
    hide BigEndian, FromBigEndian, Range, Lookup, ToByte;
    var key := PackageKey(s, d, channel, sequence);
    WordRanges();
    BigEndianRoundTrip(s, 2);
    BigEndianRoundTrip(d, 2);
    BigEndianRoundTrip(sequence, 8);
    assert key[1..3] == BigEndian(s, 2);
    assert key[3..5] == BigEndian(d, 2);
    assert key[6..] == BigEndian(sequence, 8);
  }

  /** A built sequence key finds the number of packages stored on its channel: nil for none, else in eight bytes. */
  lemma CountUnderKey(store: Store, dest: Uint16, d: Uint16, channel: Int8, height: int)
    ensures var value := SequenceValue(store, dest, SequenceKey(d, channel), height);
            var count := CountAt(Log(store, ToByte(channel)), height);
            && (value.Some? ==> |value.value| >= 8)
            && DecodeSequence(value) == if d == dest then ToUint64(count) else 0
  {
    hide BigEndian, FromBigEndian, Range, CountAt, ToByte;
    var key := SequenceKey(d, channel);
    WordRanges();
    BigEndianRoundTrip(d, 2);
    assert key[1..3] == BigEndian(d, 2);
    var count := CountAt(Log(store, ToByte(channel)), height);
    DecodedSequence(ToUint64(count), []);
    assert BigEndian(ToUint64(count), 8) + [] == BigEndian(ToUint64(count), 8);
  }

  lemma NilIsZero()
    ensures DecodeSequence(None) == 0
  {
  }

  /** Querying by a built sequence key and decoding the answer reads the counter of the channel. */
  lemma CounterByKey(env: Env, w: World, dest: Uint16, channel: Int8, height: Uint64)
    ensures var (response, v) := QuerySequenceKey(env, w, dest, SequenceKey(dest, channel), height);
            && (response.Response? && response.value.Some? ==> |response.value.value| >= 8)
            && QueryBbcCounter(env, w, ToByte(channel), height) ==
               (if response.NoResponse? then None else Some(DecodeSequence(response.value)), v)
  {
    hide BigEndian, FromBigEndian, CountAt, SequenceKey, ToByte, SequenceValue, DecodeSequence, Await;
    CountUnderKey(Await(env, w).store, dest, dest, channel, ToInt64(height));
    NilIsZero();
    var v := VerdictOf(env, w);
    if v.Stale? {
      DecodedSequence(v.value, []);
      assert BigEndian(v.value, 8) + [] == BigEndian(v.value, 8);
    }
  }

  /** Querying by a built package key asks for the package it names. */
  lemma PackageByKey(env: Env, w: World, source: Uint16, dest: Uint16, channel: Int8, sequence: Uint64, height: Uint64)
    ensures QueryPackageKey(env, w, source, dest, PackageKey(source, dest, channel, sequence), height) ==
            QueryPackage(env, w, ToByte(channel), sequence, height)
  {
    PackageUnderKey(Await(env, w).store, source, dest, source, dest, channel, sequence, ToInt64(height));
    hide PackageKey, PackageValue, Lookup, Await;
  }
}
