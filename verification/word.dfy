/** Fixed-width unsigned integers of the target. On the ESP8266 both
    `unsigned long` and `size_t` are 32 bits wide, so `millis()` readings
    wrap around after about 49.7 days. */
module Word {

  /** 2^32: one more than the largest `unsigned long`. */
  const MODULUS: int := 0x1_0000_0000

  type ULong = n: int | 0 <= n < MODULUS

  /** Unsigned subtraction `a - b`: the difference taken modulo 2^32. */
  function Sub(a: ULong, b: ULong): (r: ULong)
    ensures (b + r) % MODULUS == a
    ensures b <= a ==> r == a - b
    ensures a < b ==> r == MODULUS - (b - a)
  {
    (a - b) % MODULUS
  }

  /** The clock reading `d` milliseconds after the reading `t`. */
  function Advance(t: ULong, d: nat): ULong
  {
    (t + d) % MODULUS
  }

  /** Unsigned subtraction recovers every elapsed time shorter than one
      full wrap of the clock, including across the wrap itself. */
  lemma SubMeasuresElapsed(t: ULong, d: nat)
    requires d < MODULUS
    ensures Sub(Advance(t, d), t) == d
  {
  }
}
