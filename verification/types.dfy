/** Fixed-width integers of the C sources, status codes of the BLE host
    stack and small helpers shared by every module. */
module Types {

  /** uint8_t */
  type byte = x: int | 0 <= x < 0x100
  /** uint16_t */
  type uint16 = x: int | 0 <= x < 0x1_0000
  /** uint32_t */
  type uint32 = x: int | 0 <= x < 0x1_0000_0000
  /** int8_t */
  type int8 = x: int | -0x80 <= x < 0x80
  /** int16_t */
  type int16 = x: int | -0x8000 <= x < 0x8000

  datatype Option<T> = None | Some(value: T)

  /** What happens to a message's data after its handler ran: freed,
      kept, or decided by a flag the code never initialised on that
      path (undefined behaviour in C). */
  datatype FreeDecision = Freed | Kept | Undefined

  /** bStatus_t / status_t values of the host stack (bcomdef.h). */
  const SUCCESS: byte := 0x00
  const FAILURE: byte := 0x01
  const bleMemAllocError: byte := 0x13

  /** Connection handle the link database uses for "no connection". */
  const LINKDB_CONNHANDLE_INVALID: uint16 := 0xFFFF

  /** HCI Hardware Error event code (Bluetooth Core Specification, Vol 4,
      Part E, section 7.7.16). */
  const HCI_BLE_HARDWARE_ERROR_EVENT_CODE: byte := 0x10

  function Min(a: int, b: int): (m: int)
    ensures m <= a && m <= b
    ensures m == a || m == b
  {
    if a <= b then a else b
  }

  /** A buffer of n zero bytes. */
  function Zeros(n: nat): (z: seq<byte>)
    ensures |z| == n
    ensures forall k :: 0 <= k < n ==> z[k] == 0
  {
    seq(n, _ => 0)
  }

  /** Reinterprets the bits of a byte as int8_t (two's complement). */
  function AsInt8(b: byte): (v: int8)
    ensures (v - b) % 0x100 == 0
  {
    if b < 0x80 then b else b - 0x100
  }

  /** The byte holding the two's-complement bits of an int8_t. */
  function Int8Bits(v: int8): (b: byte)
    ensures (b - v) % 0x100 == 0
  {
    if v >= 0 then v else v + 0x100
  }

  lemma Int8RoundTrip(b: byte, v: int8)
    ensures Int8Bits(AsInt8(b)) == b
    ensures AsInt8(Int8Bits(v)) == v
  {
  }

  /** Conversion of an int to int8_t as the target compiler does it:
      the value is reduced modulo 256 into [-128, 127]. */
  function WrapInt8(x: int): (v: int8)
    ensures (v - x) % 0x100 == 0
    ensures -0x80 <= x < 0x80 ==> v == x
  {
    AsInt8(x % 0x100)
  }

  /** Reinterprets a uint16_t as int16_t (the `(int16_t)` cast). */
  function AsInt16(h: uint16): (v: int16)
    ensures (v - h) % 0x1_0000 == 0
    ensures h < 0x8000 ==> v == h
  {
    if h < 0x8000 then h else h - 0x1_0000
  }

  /** A keypad key word: the row in bits 8-15, the column in bits 0-7.
      The keypad drivers of both the haiku viewer and the barebot remote
      build the word this way. */
  function KeyWord(row: byte, col: byte): (w: uint32)
  {
    row * 0x100 + col
  }

  /** The row and column a key word carries, as both applications
      decode it: `(uint8_t)(word >> 8)` and `word & 0xFF`, so bits 16-31
      are dropped. */
  function DecodeKey(word: uint32): (rc: (byte, byte))
    ensures KeyWord(rc.0, rc.1) == word % 0x1_0000
  {
    ((word / 0x100) % 0x100, word % 0x100)
  }

  lemma KeyWordRoundTrip(row: byte, col: byte)
    ensures DecodeKey(KeyWord(row, col)) == (row, col)
  {
  }

  /** Quotient and remainder by 256 are determined by any decomposition
      with a remainder in range. */
  lemma DivMod256(x: nat, q: nat, r: nat)
    requires r < 0x100 && x == q * 0x100 + r
    ensures x / 0x100 == q && x % 0x100 == r
  {
    var q', r' := x / 0x100, x % 0x100;
    assert x == q' * 0x100 + r';
    assert (q - q') * 0x100 == r' - r;
  }

  /** Bits 16-31 of a key word do not change the key it carries. */
  lemma DecodeKeyDropsUpperBits(row: byte, col: byte, upper: nat)
    requires KeyWord(row, col) + upper * 0x1_0000 < 0x1_0000_0000
    ensures DecodeKey(KeyWord(row, col) + upper * 0x1_0000) == (row, col)
  {
    var w := KeyWord(row, col) + upper * 0x1_0000;
    var k := row + upper * 0x100;
    assert w == k * 0x100 + col;
    DivMod256(w, k, col);
    DivMod256(k, upper, row);
  }
}
