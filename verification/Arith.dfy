/** The few facts about multiplication and remainders that the pager needs. */
module Arith {
  lemma MulMonotone(n: nat, d: nat)
    requires d >= 1
    ensures n * d >= n
  {
  }

  lemma MulOrder(n: nat, i: nat, j: nat)
    ensures j <= i ==> n * j <= n * i
  {
    if j <= i {
      assert n * i == n * j + n * (i - j);
    }
  }

  lemma MulLess(n: nat, i: nat, j: nat)
    requires n * i < n * j
    ensures i < j
  {
    MulOrder(n, i, j);
  }

  lemma DivModParts(n: nat, x: nat)
    requires 0 < n
    ensures x == n * (x / n) + x % n && 0 <= x % n < n && 0 <= x / n
  {
  }

  lemma ModUnique(n: nat, q: nat, r: nat)
    requires r < n
    ensures (n * q + r) % n == r && (n * q + r) / n == q
  {
    var a, b := (n * q + r) / n, (n * q + r) % n;
    assert n * (a - q) == n * a - n * q == r - b;
    assert n * (q - a) == n * q - n * a == b - r;
    if a > q {
      MulMonotone(n, a - q);
    } else if a < q {
      MulMonotone(n, q - a);
    }
  }
}
