/** Two's-complement wrap-around of Go's `int64`. */
module Int64 {

  const MIN: int := -0x8000_0000_0000_0000
  const MAX: int := 0x7fff_ffff_ffff_ffff
  const MODULUS: int := 0x1_0000_0000_0000_0000

  predicate Fits(x: int) {
    MIN <= x <= MAX
  }

  function Wrap(x: int): (r: int)
    ensures Fits(r)
    ensures Fits(x) ==> r == x
  {
    (x - MIN) % MODULUS + MIN
  }

  /** Wrapping an operand first does not change a wrapped sum or difference. */
  lemma WrapLeft(a: int, b: int)
    ensures Wrap(Wrap(a) + b) == Wrap(a + b)
  {
    var q := (a - MIN) / MODULUS;
    assert a == Wrap(a) + MODULUS * q;
    Shift(Wrap(a) + b - MIN, q);
  }

  lemma WrapDifference(a: int, b: int)
    ensures Wrap(Wrap(a) - b) == Wrap(a - b)
  {
    WrapLeft(a, -b);
    assert Wrap(a) - b == Wrap(a) + -b && a - b == a + -b;
  }

  lemma Shift(x: int, q: int)
    ensures (x + MODULUS * q) % MODULUS == x % MODULUS
  {
    var d := x / MODULUS;
    assert x + MODULUS * q == MODULUS * (d + q) + x % MODULUS;
    Unique(d + q, x % MODULUS);
  }

  lemma Unique(q: int, r: int)
    requires 0 <= r < MODULUS
    ensures (MODULUS * q + r) % MODULUS == r
  {
  }
}
