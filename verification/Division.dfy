/** Quotients and remainders. */
module Division {

  lemma MulLe(d: nat, x: nat, y: nat)
    requires x <= y
    ensures d * x <= d * y
  {
    assert d * y == d * x + d * (y - x);
  }

  lemma DivUnique(n: nat, d: nat, k: nat, r: nat)
    requires d > 0 && n == d * k + r && r < d
    ensures n / d == k && n % d == r
  {
    var x, y := n / d, n % d;
    assert n == d * x + y && 0 <= y < d;
    assert d * (k + 1) == d * k + d && d * (x + 1) == d * x + d;
    if x > k { MulLe(d, k + 1, x); }
    if x < k { MulLe(d, x + 1, k); }
  }
}
