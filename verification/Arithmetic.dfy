/**
 Facts about quotients that the solver does not find on its own.
 */
module Arithmetic {

  lemma Halve(a: nat, q: nat)
    requires q > 0
    ensures a / (2 * q) == a / q / 2
  {
    var h := a / q / 2;
    assert a / q == 2 * h + a / q % 2;
    assert a == (2 * h + a / q % 2) * q + a % q;
    assert a == h * (2 * q) + (a / q % 2) * q + a % q;
    Quotient(a, 2 * q, h, (a / q % 2) * q + a % q);
  }

  lemma Quotient(a: nat, d: nat, h: nat, r: nat)
    requires a == h * d + r && r < d
    ensures a / d == h
  {
    assert a == (a / d) * d + a % d;
    Steps(a / d, h, d);
    Steps(h, a / d, d);
  }

  lemma {:induction false} Steps(x: int, y: int, d: nat)
    ensures x < y ==> x * d + d <= y * d
    decreases y - x
  {
    if x < y {
      assert y * d == (y - 1) * d + d;
      Steps(x, y - 1, d);
    }
  }
}
