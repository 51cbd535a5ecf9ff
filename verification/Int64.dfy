/** The signed 64-bit arithmetic of the source's int64 columns and counters. */
module Int64 {

  const TWO63: int := 0x8000_0000_0000_0000
  const TWO64: int := 0x1_0000_0000_0000_0000

  predicate Fits(x: int) {
    -TWO63 <= x < TWO63
  }

  /** The int64 a mathematical result is stored as. */
  function Wrap(x: int): (r: int)
    ensures Fits(r)
    ensures Fits(x) ==> r == x
    ensures (x - r) % TWO64 == 0
  {
    (x + TWO63) % TWO64 - TWO63
  }

  /** Division truncating toward zero. */
  function TruncDiv(x: int, d: int): (r: int)
    requires d > 0
    ensures -d < x - r * d < d
    ensures x >= 0 ==> 0 <= r * d <= x
    ensures x <= 0 ==> x <= r * d <= 0
  {
    if x >= 0 then x / d else -((-x) / d)
  }

  /** Wrapping at every addition gives the same int64 as wrapping once at the end. */
  lemma WrapAdd(a: int, b: int)
    ensures Wrap(Wrap(a) + b) == Wrap(a + b)
  {
    var k := (a + TWO63) / TWO64;
    assert Wrap(a) == a - k * TWO64;
    ModShift(a + b + TWO63, -k);
  }

  lemma ModShift(x: int, k: int)
    ensures (x + k * TWO64) % TWO64 == x % TWO64
  {
    var q, r := x / TWO64, x % TWO64;
    assert x + k * TWO64 == (q + k) * TWO64 + r;
  }

  /** An int64 sum is zero exactly when the true sum is a multiple of 2^64. */
  lemma WrapZero(x: int)
    ensures Wrap(x) == 0 <==> x % TWO64 == 0
  {
    var q, r := x / TWO64, x % TWO64;
    ModShift(r + TWO63, q);
    assert x + TWO63 == (r + TWO63) + q * TWO64;
  }
}
