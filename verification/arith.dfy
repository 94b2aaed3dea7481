/** Facts about natural-number multiplication and floor division that the proofs
    about the fixed-point formulas rely on. */
module Arith {

  lemma MulLe(a: int, b: int, c: nat)
    requires a <= b
    ensures a * c <= b * c
  {
    assert b * c - a * c == (b - a) * c;
  }

  /** A strictly larger factor is larger by at least one whole multiple. */
  lemma MulStrict(a: int, b: int, c: nat)
    requires a < b
    ensures a * c + c <= b * c
  {
    MulLe(a + 1, b, c);
    assert (a + 1) * c == a * c + c;
  }

  lemma MulCancel(a: int, b: int, c: nat)
    requires c > 0
    requires a * c <= b * c
    ensures a <= b
  {
    if a > b {
      MulStrict(b, a, c);
    }
  }

  /** Floor division, stated by its defining bounds. */
  lemma DivBounds(a: nat, d: nat)
    requires d > 0
    ensures (a / d) * d <= a < (a / d) * d + d
  {
  }

  /** The floor of a/d is the unique q with q*d <= a < q*d + d. */
  lemma DivUnique(a: nat, d: nat, q: nat)
    requires d > 0
    requires q * d <= a < q * d + d
    ensures a / d == q
  {
    DivBounds(a, d);
    var p := a / d;
    if p < q {
      MulStrict(p, q, d);
    } else if p > q {
      MulStrict(q, p, d);
    }
  }

  lemma DivMonotone(a: nat, b: nat, d: nat)
    requires d > 0
    requires a <= b
    ensures a / d <= b / d
  {
    DivBounds(a, d);
    DivBounds(b, d);
    if a / d > b / d {
      MulStrict(b / d, a / d, d);
    }
  }

  lemma DivAntitone(a: nat, d1: nat, d2: nat)
    requires 0 < d1 <= d2
    ensures a / d2 <= a / d1
  {
    DivBounds(a, d1);
    DivBounds(a, d2);
    var q := a / d2;
    MulLe(d1, d2, q);
    assert q * d1 <= q * d2 <= a;
    if q > a / d1 {
      MulStrict(a / d1, q, d1);
    }
  }

  lemma MulDivCancel(k: nat, d: nat)
    requires d > 0
    ensures (k * d) / d == k
  {
    DivUnique(k * d, d, k);
  }

  /** Adding a whole multiple of d to the dividend adds exactly that multiple to the quotient. */
  lemma DivAddMultiple(k: nat, b: nat, d: nat)
    requires d > 0
    ensures (k * d + b) / d == k + b / d
  {
    DivBounds(b, d);
    assert (k + b / d) * d == k * d + (b / d) * d;
    DivUnique(k * d + b, d, k + b / d);
  }

  lemma ModOfMultiple(k: int, d: nat)
    requires d > 0
    ensures (k * d) % d == 0
  {
    var q, r := (k * d) / d, (k * d) % d;
    assert k * d == q * d + r && 0 <= r < d;
    assert (k - q) * d == r;
    if k - q >= 1 {
      MulLe(1, k - q, d);
    } else if k - q <= -1 {
      MulLe(k - q, -1, d);
    }
  }

  lemma ModZeroIsMultiple(x: int, d: nat)
    requires d > 0
    requires x % d == 0
    ensures x == (x / d) * d
  {
  }

  lemma ModSum(x: int, y: int, d: nat)
    requires d > 0
    requires x % d == 0 && y % d == 0
    ensures (x + y) % d == 0
  {
    ModZeroIsMultiple(x, d);
    ModZeroIsMultiple(y, d);
    assert x + y == (x / d + y / d) * d;
    ModOfMultiple(x / d + y / d, d);
  }
}
