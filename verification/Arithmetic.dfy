/** Division facts that the counting and bit-string proofs share. */
module Arithmetic {

  lemma MultipleBound(k: int, max: int)
    requires max > 0
    ensures k >= 1 ==> k * max >= max
    ensures k <= -1 ==> k * max <= -max
  {
    if k >= 1 { assert (k - 1) * max >= 0; }
    if k <= -1 { assert (-k - 1) * max >= 0; }
  }

  /** A quotient and a small enough remainder are the only ones. */
  lemma Quotient(q: int, max: int, r: int)
    requires 0 <= r < max
    ensures (q * max + r) / max == q && (q * max + r) % max == r
  {
    var n := q * max + r;
    assert n == (n / max) * max + n % max;
    var k := q - n / max;
    assert k * max == n % max - r;
    MultipleBound(k, max);
  }

  lemma SameResidue(v: int, w: int, max: int)
    requires max > 0 && v % max == w % max && w <= v < w + max
    ensures v == w
  {
    var k := v / max - w / max;
    assert v - w == k * max;
    MultipleBound(k, max);
  }
}
