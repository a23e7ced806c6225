/** The fixed-width integers of the relayer and the wrap-around of its arithmetic. */
module Machine {

  datatype Option<+T> = None | Some(value: T)

  type Byte = x: int | 0 <= x < 0x100
  type Int8 = x: int | -0x80 <= x < 0x80
  type Uint16 = x: int | 0 <= x < 0x1_0000
  type Int64 = x: int | -0x8000_0000_0000_0000 <= x < 0x8000_0000_0000_0000
  type Uint64 = x: int | 0 <= x < 0x1_0000_0000_0000_0000

  const MAX_UINT64: Uint64 := 0xffff_ffff_ffff_ffff

  type Bytes = seq<Byte>

  /** The conversion uint16(x) of a signed integer. */
  function ToUint16(x: int): Uint16 {
    x % 0x1_0000
  }

  /** The conversion uint64(x) of a signed integer. */
  function ToUint64(x: int): Uint64 {
    x % 0x1_0000_0000_0000_0000
  }

  /** The conversion int64(x): the representative of x modulo 2^64 in the signed range. */
  function ToInt64(x: int): Int64 {
    (x + 0x8000_0000_0000_0000) % 0x1_0000_0000_0000_0000 - 0x8000_0000_0000_0000
  }

  /** The conversion byte(x) of an int8. */
  function ToByte(x: Int8): Byte {
    x % 0x100
  }

  /** The conversion int8(x) of a byte. */
  function ToInt8(x: Byte): Int8 {
    if x < 0x80 then x else x - 0x100
  }

  function Add64(a: Uint64, b: Uint64): Uint64 {
    ToUint64(a + b)
  }

  function Sub64(a: Uint64, b: Uint64): Uint64 {
    ToUint64(a - b)
  }

  /** Each conversion keeps the value modulo its width and leaves the values of its range alone. */
  lemma Conversions(x: int)
    ensures (x - ToUint16(x)) % 0x1_0000 == 0 && (0 <= x < 0x1_0000 ==> ToUint16(x) == x)
    ensures (x - ToUint64(x)) % 0x1_0000_0000_0000_0000 == 0
    ensures 0 <= x < 0x1_0000_0000_0000_0000 ==> ToUint64(x) == x
    ensures (x - ToInt64(x)) % 0x1_0000_0000_0000_0000 == 0
    ensures -0x8000_0000_0000_0000 <= x < 0x8000_0000_0000_0000 ==> ToInt64(x) == x
    ensures -0x80 <= x < 0x80 ==> ToInt8(ToByte(x)) == x && (0 <= x ==> ToByte(x) == x)
    ensures 0 <= x < 0x100 ==> ToByte(ToInt8(x)) == x
  {
  }
}
