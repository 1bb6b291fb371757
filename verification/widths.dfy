/** The C integer conversions the option parsers go through: `strtoul`
    returns an `unsigned long`, which the parsers store into a `portno_t`
    (16 bits), an `int` (32 bits, two's complement) or a `uint8_t`. A
    conversion to a narrower type keeps the low-order bits. */
module Widths {

  /** `ULONG_MAX` on an LP64 target. */
  const UlongMax: nat := 0xFFFF_FFFF_FFFF_FFFF

  /** Assignment to a `uint8_t`. */
  function ToU8(n: nat): (r: nat)
    ensures r < 0x100 && (n - r) % 0x100 == 0
  {
    n % 0x100
  }

  /** Assignment to a 16-bit `portno_t`. */
  function ToU16(n: nat): (r: nat)
    ensures r < 0x1_0000 && (n - r) % 0x1_0000 == 0
  {
    n % 0x1_0000
  }

  /** Assignment to a 32-bit `int`. */
  function ToInt32(n: nat): (r: int)
    ensures -0x8000_0000 <= r < 0x8000_0000 && (n - r) % 0x1_0000_0000 == 0
  {
    var w := n % 0x1_0000_0000;
    if w < 0x8000_0000 then w else w - 0x1_0000_0000
  }

  /** An `int` read from `n` is positive exactly when the low 32 bits of
      `n` are nonzero with the sign bit clear, and is then those bits. */
  lemma ToInt32Positive(n: nat)
    ensures ToInt32(n) > 0 <==> 0 < n % 0x1_0000_0000 < 0x8000_0000
    ensures ToInt32(n) > 0 ==> ToInt32(n) == n % 0x1_0000_0000
  {
  }

  /** `strtoul` negates a minus-signed number modulo 2^64, so `-n` comes
      out as `ULONG_MAX + 1 - n`. A `uint8_t` keeps the low-order byte of
      that negation: `256 - n` for a small `n`. */
  lemma {:induction false} NegationToU8(n: nat)
    requires 0 < n < 0x100
    ensures ToU8(UlongMax + 1 - n) == 0x100 - n
  {
    var r := 0x100 - n;
    assert UlongMax + 1 - n == 0x100 * 0xFF_FFFF_FFFF_FFFF + r;
  }

  /** A 16-bit `portno_t` keeps `65536 - n` of the negation of a port-sized `n`. */
  lemma {:induction false} NegationToU16(n: nat)
    requires 0 < n < 0x1_0000
    ensures ToU16(UlongMax + 1 - n) == 0x1_0000 - n
  {
    var r := 0x1_0000 - n;
    assert UlongMax + 1 - n == 0x1_0000 * 0xFFFF_FFFF_FFFF + r;
  }

  /** An `int` reads the negation of an `n` up to 2^31 as `-n` again. */
  lemma {:induction false} NegationToInt32(n: nat)
    requires 0 < n <= 0x8000_0000
    ensures ToInt32(UlongMax + 1 - n) == -(n as int)
  {
    var r := 0x1_0000_0000 - n;
    assert UlongMax + 1 - n == 0x1_0000_0000 * 0xFFFF_FFFF + r;
  }
}
