/** Quotients and remainders by a number that is not a constant, and powers of two. */
module Division {
  predicate IsPowerOfTwo(n: nat) {
    n == 1 || (n > 1 && n % 2 == 0 && IsPowerOfTwo(n / 2))
  }

  lemma Grows(divisor: nat, k: int)
    ensures k >= 1 ==> divisor * k >= divisor
    ensures k <= -1 ==> divisor * k + divisor <= 0
  {
    if k >= 1 {
      assert divisor * (k - 1) >= 0;
    } else if k <= -1 {
      assert divisor * (-k - 1) >= 0;
    }
  }

  lemma ModIs(divisor: nat, q: nat, r: nat)
    requires r < divisor
    ensures (q * divisor + r) % divisor == r && (q * divisor + r) / divisor == q
  {
    var x := q * divisor + r;
    var d, m := x / divisor, x % divisor;
    assert x == divisor * d + m;
    assert divisor * (d - q) == divisor * d - divisor * q == r - m;
    Grows(divisor, d - q);
  }

  lemma MulOrder(a: nat, b: nat, size: nat)
    requires a <= b
    ensures a * size <= b * size
  {
    assert b * size - a * size == (b - a) * size;
  }

  lemma SmallMod(n: nat, divisor: nat)
    requires n < divisor
    ensures n % divisor == n
  {
  }

  lemma DivTwice(n: nat, a: nat, b: nat)
    requires a > 0 && b > 0
    ensures a * b > 0 && n / (a * b) == n / a / b
  {
    var q, r := n / a, n % a;
    var u, v := q / b, q % b;
    assert a * b > 0;
    MulOrder(v, b - 1, a);
    Nested(n, a, b, u, v, r);
    ModIs(a * b, u, v * a + r);
  }

  lemma Nested(n: nat, a: nat, b: nat, u: nat, v: nat, r: nat)
    requires n == (u * b + v) * a + r && v * a <= (b - 1) * a && r < a
    ensures n == u * (a * b) + (v * a + r) && v * a + r < a * b
  {
  }
}
