/** Facts about products and quotients, one per lemma so that each proof names the ones it uses. */
module Arithmetic {

  lemma MulLe(x: nat, y: nat, z: nat)
    requires x <= y
    ensures x * z <= y * z
  {
  }

  lemma MulLt(x: nat, y: nat, z: nat)
    requires x < y && z > 0
    ensures x * z < y * z
  {
  }

  /** A common positive factor cancels from an inequality. */
  lemma CancelLe(x: nat, y: nat, z: nat)
    requires z > 0 && x * z <= y * z
    ensures x <= y
  {
    if y < x {
      MulLt(y, x, z);
    }
  }

  lemma DivBounds(a: nat, b: nat)
    requires b > 0
    ensures a / b * b <= a < (a / b + 1) * b
  {
    assert a == a / b * b + a % b;
    assert (a / b + 1) * b == a / b * b + b;
  }

  /** The quotient is the largest multiplier that fits. */
  lemma DivIsLargest(a: nat, b: nat, q: nat)
    requires b > 0
    ensures q <= a / b <==> q * b <= a
  {
    DivBounds(a, b);
    var d := a / b;
    if q <= d {
      MulLe(q, d, b);
    } else {
      MulLe(d + 1, q, b);
    }
  }

  function CeilDiv(a: nat, b: nat): nat
    requires b > 0
  {
    a / b + (if a % b == 0 then 0 else 1)
  }

  /** The rounded-up quotient is the smallest multiplier that covers. */
  lemma CeilIsSmallest(a: nat, b: nat, q: nat)
    requires b > 0
    ensures CeilDiv(a, b) <= q <==> a <= q * b
  {
    DivBounds(a, b);
    var d, r := a / b, a % b;
    assert a == d * b + r;
    if CeilDiv(a, b) <= q {
      if r == 0 {
        MulLe(d, q, b);
      } else {
        MulLe(d + 1, q, b);
      }
    } else if r == 0 {
      MulLt(q, d, b);
    } else {
      MulLe(q, d, b);
    }
  }

  lemma DivAtMost(a: nat, b: nat)
    requires b > 0
    ensures a / b <= a && CeilDiv(a, b) <= a
  {
    DivBounds(a, b);
    MulLe(1, b, a);
    CeilIsSmallest(a, b, a);
    DivIsLargest(a, b, a / b);
  }

  lemma DivExact(a: nat, b: nat)
    requires b > 0
    ensures b * a / b == a
  {
    DivIsLargest(b * a, b, a);
    DivIsLargest(b * a, b, a + 1);
    assert (a + 1) * b == b * a + b;
  }

  /** Inequalities multiply. */
  lemma MulBoth(a: nat, b: nat, c: nat, d: nat)
    requires a <= b && c <= d
    ensures a * c <= b * d
  {
    MulLe(a, b, c);
    MulLe(c, d, b);
  }

  lemma SquareLe(x: nat, y: nat)
    requires x * x <= y * y
    ensures x <= y
  {
    if y < x {
      MulLt(y, x, x);
      MulLe(y, x, y);
    }
  }
}
