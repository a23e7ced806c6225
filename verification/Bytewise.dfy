/** Big-endian numbers and byte-lexicographic order. */
module Bytewise {
  import opened Machine

  function BigEndian(x: nat, width: nat): Bytes
    ensures |BigEndian(x, width)| == width
  {
    if width == 0 then [] else BigEndian(x / 0x100, width - 1) + [x % 0x100]
  }

  function FromBigEndian(b: Bytes): nat {
    if b == [] then 0 else FromBigEndian(b[..|b| - 1]) * 0x100 + b[|b| - 1]
  }

  /** 256 to the power `width`. */
  function Range(width: nat): nat {
    if width == 0 then 1 else 0x100 * Range(width - 1)
  }

  lemma {:induction false} BigEndianRoundTrip(x: nat, width: nat)
    requires x < Range(width)
    ensures FromBigEndian(BigEndian(x, width)) == x
  {
    if width == 0 {
    } else {
      BigEndianRoundTrip(x / 0x100, width - 1);
      var b := BigEndian(x, width);
      assert b[..|b| - 1] == BigEndian(x / 0x100, width - 1);
    }
  }

  lemma WordRanges()
    ensures Range(2) == 0x1_0000 && Range(8) == 0x1_0000_0000_0000_0000
  {
    assert Range(4) == 0x1_0000_0000;
    assert Range(6) == 0x1_0000_0000_0000;
  }

  /** bytes.Compare(a, b) < 0. */
  predicate Less(a: Bytes, b: Bytes) {
    if a == [] || b == [] then a == [] && b != []
    else a[0] < b[0] || (a[0] == b[0] && Less(a[1..], b[1..]))
  }

  /** Comparing concatenations: the first parts decide, then the second. */
  lemma {:induction false} LessConcat(a: Bytes, b: Bytes, c: Bytes, d: Bytes)
    requires |a| == |c|
    ensures Less(a + b, c + d) <==> Less(a, c) || (a == c && Less(b, d))
    ensures !(Less(a, c) && a == c)
  {
    if a == [] {
      assert a + b == b && c + d == d;
    } else {
      LessConcat(a[1..], b, c[1..], d);
      assert (a + b)[1..] == a[1..] + b && (c + d)[1..] == c[1..] + d;
      assert a == c <==> a[0] == c[0] && a[1..] == c[1..];
    }
  }

  /** On encodings of one width, byte order is the order of the numbers. */
  lemma {:induction false} LessIsNumeric(x: nat, y: nat, width: nat)
    requires x < Range(width) && y < Range(width)
    ensures Less(BigEndian(x, width), BigEndian(y, width)) <==> x < y
    ensures BigEndian(x, width) == BigEndian(y, width) <==> x == y
  {
    BigEndianRoundTrip(x, width);
    BigEndianRoundTrip(y, width);
    if width == 0 {
    } else {
      LessIsNumeric(x / 0x100, y / 0x100, width - 1);
      LessConcat(BigEndian(x / 0x100, width - 1), [x % 0x100], BigEndian(y / 0x100, width - 1), [y % 0x100]);
    }
  }

  /** copy into a buffer at a position. */
  method Put(buffer: array<Byte>, pos: nat, bytes: Bytes)
    requires pos + |bytes| <= buffer.Length
    modifies buffer
    ensures buffer[..pos + |bytes|] == old(buffer[..pos]) + bytes
  {
    for i := 0 to |bytes|
      invariant forall k :: 0 <= k < pos ==> buffer[k] == old(buffer[k])
      invariant forall k :: pos <= k < pos + i ==> buffer[k] == bytes[k - pos]
    {
      buffer[pos + i] := bytes[i];
    }
  }
}
