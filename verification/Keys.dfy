/** The store keys under which Binance Chain keeps packages and sequence counters. */
module Keys {
  import opened Machine
  import opened Bytewise

  function PackageKey(source: Uint16, dest: Uint16, channel: Int8, sequence: Uint64): Bytes {
    [0x00] + (BigEndian(source, 2) + (BigEndian(dest, 2) + ([ToByte(channel)] + BigEndian(sequence, 8))))
  }

  function SequenceKey(dest: Uint16, channel: Int8): Bytes {
    [0xf0] + (BigEndian(dest, 2) + [ToByte(channel)])
  }

  method BuildCrossChainPackageKey(sourceChainID: Uint16, destinationChainID: Uint16, channelID: Int8,
      sequence: Uint64) returns (key: array<Byte>)
    ensures fresh(key) && key[..] == PackageKey(sourceChainID, destinationChainID, channelID, sequence)
  {
    hide BigEndian;
    key := new Byte[14];
    Put(key, 0, [0x00]);
    Put(key, 1, BigEndian(sourceChainID, 2));
    Put(key, 3, BigEndian(destinationChainID, 2));
    Put(key, 5, [ToByte(channelID)]);
    Put(key, 6, BigEndian(sequence, 8));
    assert key[..] == key[..14];
  }

  method BuildChannelSequenceKey(destCrossChainID: Uint16, channelID: Int8) returns (key: array<Byte>)
    ensures fresh(key) && key[..] == SequenceKey(destCrossChainID, channelID)
  {
    hide BigEndian;
    key := new Byte[4];
    Put(key, 0, [0xf0]);
    Put(key, 1, BigEndian(destCrossChainID, 2));
    Put(key, 3, [ToByte(channelID)]);
    assert key[..] == key[..4] == [0xf0] + BigEndian(destCrossChainID, 2) + [ToByte(channelID)];
  }

  /** The counter read from the store: a missing value is 0, else its first eight bytes. */
  function DecodeSequence(value: Option<Bytes>): nat
    requires value.Some? ==> |value.value| >= 8
  {
    if value.None? then 0 else FromBigEndian(value.value[..8])
  }

  /** Reading a counter inverts its eight-byte encoding, whatever follows it. */
  lemma DecodedSequence(x: Uint64, rest: Bytes)
    ensures DecodeSequence(Some(BigEndian(x, 8) + rest)) == x
  {
    WordRanges();
    BigEndianRoundTrip(x, 8);
    assert (BigEndian(x, 8) + rest)[..8] == BigEndian(x, 8);
  }

  /** Lexicographic order of what a package key names; the channel counts as a byte. */
  predicate NamedBefore(s1: Uint16, d1: Uint16, c1: Int8, q1: Uint64, s2: Uint16, d2: Uint16, c2: Int8, q2: Uint64) {
    || s1 < s2
    || (s1 == s2 && d1 < d2)
    || (s1 == s2 && d1 == d2 && ToByte(c1) < ToByte(c2))
    || (s1 == s2 && d1 == d2 && ToByte(c1) == ToByte(c2) && q1 < q2)
  }

  lemma LessByte(a: Byte, b: Byte)
    ensures Less([a], [b]) <==> a < b
  {
  }

  /** The byte order of package keys is the order of what they name. */
  lemma PackageKeysKeepOrder(s1: Uint16, d1: Uint16, c1: Int8, q1: Uint64, s2: Uint16, d2: Uint16, c2: Int8, q2: Uint64)
    ensures Less(PackageKey(s1, d1, c1, q1), PackageKey(s2, d2, c2, q2))
        <==> NamedBefore(s1, d1, c1, q1, s2, d2, c2, q2)
  {
    hide BigEndian, Range, Less;
    WordRanges();
    LessIsNumeric(s1, s2, 2);
    LessIsNumeric(d1, d2, 2);
    LessIsNumeric(q1, q2, 8);
    var (b1, b2) := ([ToByte(c1)], [ToByte(c2)]);
    var (t1, t2) := (b1 + BigEndian(q1, 8), b2 + BigEndian(q2, 8));
    var (u1, u2) := (BigEndian(d1, 2) + t1, BigEndian(d2, 2) + t2);
    LessConcat([0x00], BigEndian(s1, 2) + u1, [0x00], BigEndian(s2, 2) + u2);
    LessConcat(BigEndian(s1, 2), u1, BigEndian(s2, 2), u2);
    LessConcat(BigEndian(d1, 2), t1, BigEndian(d2, 2), t2);
    LessConcat(b1, BigEndian(q1, 8), b2, BigEndian(q2, 8));
    LessByte(ToByte(c1), ToByte(c2));
    LessByte(0, 0);
  }

  lemma SameParts(a: Bytes, b: Bytes, c: Bytes, d: Bytes)
    requires |a| == |c| && a + b == c + d
    ensures a == c && b == d
  {
    assert a == (a + b)[..|a|] && b == (a + b)[|a|..];
    assert c == (c + d)[..|c|] && d == (c + d)[|c|..];
  }

  /** Distinct names have distinct keys. */
  lemma PackageKeysAreInjective(s1: Uint16, d1: Uint16, c1: Int8, q1: Uint64, s2: Uint16, d2: Uint16, c2: Int8,
      q2: Uint64)
    requires PackageKey(s1, d1, c1, q1) == PackageKey(s2, d2, c2, q2)
    ensures s1 == s2 && d1 == d2 && c1 == c2 && q1 == q2
  {
    hide BigEndian, Range;
    WordRanges();
    LessIsNumeric(s1, s2, 2);
    LessIsNumeric(d1, d2, 2);
    LessIsNumeric(q1, q2, 8);
    var (b1, b2) := ([ToByte(c1)], [ToByte(c2)]);
    var (t1, t2) := (b1 + BigEndian(q1, 8), b2 + BigEndian(q2, 8));
    var (u1, u2) := (BigEndian(d1, 2) + t1, BigEndian(d2, 2) + t2);
    SameParts([0x00], BigEndian(s1, 2) + u1, [0x00], BigEndian(s2, 2) + u2);
    SameParts(BigEndian(s1, 2), u1, BigEndian(s2, 2), u2);
    SameParts(BigEndian(d1, 2), t1, BigEndian(d2, 2), t2);
    SameParts(b1, BigEndian(q1, 8), b2, BigEndian(q2, 8));
    assert b1[0] == b2[0];
  }

  /** Sequence keys are injective, and none is a package key or the beginning of one. */
  lemma SequenceKeysAreApart(d1: Uint16, c1: Int8, d2: Uint16, c2: Int8, source: Uint16, dest: Uint16,
      channel: Int8, sequence: Uint64)
    ensures SequenceKey(d1, c1) == SequenceKey(d2, c2) <==> d1 == d2 && c1 == c2
    ensures !(SequenceKey(d1, c1) <= PackageKey(source, dest, channel, sequence))
  {
    WordRanges();
    LessIsNumeric(d1, d2, 2);
    if SequenceKey(d1, c1) == SequenceKey(d2, c2) {
      SameParts([0xf0], BigEndian(d1, 2) + [ToByte(c1)], [0xf0], BigEndian(d2, 2) + [ToByte(c2)]);
      SameParts(BigEndian(d1, 2), [ToByte(c1)], BigEndian(d2, 2), [ToByte(c2)]);
      assert [ToByte(c1)][0] == [ToByte(c2)][0];
    }
    assert SequenceKey(d1, c1)[0] == 0xf0 && PackageKey(source, dest, channel, sequence)[0] == 0x00;
  }
}
