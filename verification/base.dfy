/** Machine-level vocabulary shared by the whole model. Bytes, registers and
    the other `uint8_t` values the firmware masks are `bv8`; the ring buffer's
    indices and counter, which the firmware only counts with, are `u8`
    integers. Also bit positions within an 8-bit I/O port, and an Option type. */
module Base {

  /** A C `uint8_t` used for counting, kept as a mathematical integer; every
      wrap-around is written out where the source has one. */
  type u8 = x: int | 0 <= x < 256

  /** A bit position inside an 8-bit AVR port (`PC0`..`PC7`, `PB0`..`PB7`, ...). */
  type BitPos = k: int | 0 <= k < 8

  datatype Option<+T> = None | Some(value: T)

  /** `_BV(k)`: the port value with only bit `k` set. */
  function Bit(k: BitPos): bv8 {
    (1 as bv8) << k
  }

  /** Whether bit `k` of a port value is high. */
  predicate IsSet(port: bv8, k: BitPos) {
    port & Bit(k) != 0
  }

  /** Below 32 the mask by 31 keeps every bit. */
  lemma MaskKeepsLowValues(y: bv8)
    requires y < 32
    ensures y & 31 == y
  {}

  /** Masking with 31 an index one past a ring position (at most 32) keeps
      its remainder modulo 32. */
  lemma MaskIsModulo(x: u8)
    requires x <= 32
    ensures ((x as bv8) & 31) as int == x % 32
  {
    if x == 32 {
      assert (32 as bv8) & 31 == 0;
    } else {
      var y := x as bv8;
      assert y < 32;
      MaskKeepsLowValues(y);
    }
  }

  /** The high nibble of a byte is 0xB exactly when the byte lies in 0xB0..0xBF. */
  lemma HighNibbleIsB(b: bv8)
    ensures b & 0xF0 == 0xB0 <==> 0xB0 <= b <= 0xBF
  {}

  /** `port |= _BV(k)`. */
  function SetBit(port: bv8, k: BitPos): (r: bv8)
    ensures IsSet(r, k)
    ensures forall j: BitPos :: j != k ==> (IsSet(r, j) <==> IsSet(port, j))
  {
    port | Bit(k)
  }

  /** `port &= ~_BV(k)`. */
  function ClearBit(port: bv8, k: BitPos): (r: bv8)
    ensures !IsSet(r, k)
    ensures forall j: BitPos :: j != k ==> (IsSet(r, j) <==> IsSet(port, j))
  {
    port & !Bit(k)
  }

  /** Two port values that agree on every bit are equal. */
  lemma BitsDetermine(a: bv8, b: bv8)
    requires forall j: BitPos :: IsSet(a, j) <==> IsSet(b, j)
    ensures a == b
  {
    assert IsSet(a, 0) <==> IsSet(b, 0);
    assert IsSet(a, 1) <==> IsSet(b, 1);
    assert IsSet(a, 2) <==> IsSet(b, 2);
    assert IsSet(a, 3) <==> IsSet(b, 3);
    assert IsSet(a, 4) <==> IsSet(b, 4);
    assert IsSet(a, 5) <==> IsSet(b, 5);
    assert IsSet(a, 6) <==> IsSet(b, 6);
    assert IsSet(a, 7) <==> IsSet(b, 7);
  }
}
