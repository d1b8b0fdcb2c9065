/** Powers and remainders, as far as the SRP-6 formulas need them. */
module Arith {
  function Pow(b: int, e: nat): (r: int)
    ensures b >= 0 ==> r >= 0
    ensures b > 0 ==> r > 0
    decreases e
  {
    if e == 0 then 1 else b * Pow(b, e - 1)
  }

  lemma {:induction false} PowAdd(b: int, m: nat, n: nat)
    ensures Pow(b, m + n) == Pow(b, m) * Pow(b, n)
    decreases m
  {
    if m > 0 {
      PowAdd(b, m - 1, n);
      assert Pow(b, m + n) == b * Pow(b, (m - 1) + n);
      MulAssociates(b, Pow(b, m - 1), Pow(b, n));
    }
  }

  lemma MulAssociates(x: int, y: int, z: int)
    ensures x * (y * z) == (x * y) * z
  {
  }

  lemma {:induction false} PowMul(b: int, m: nat, n: nat)
    ensures m * n >= 0 && Pow(b, m * n) == Pow(Pow(b, m), n)
    decreases n
  {
    if n > 0 {
      PowMul(b, m, n - 1);
      assert m * n == m + m * (n - 1);
      PowAdd(b, m, m * (n - 1));
    }
  }

  lemma {:induction false} PowOfProduct(a: int, b: int, e: nat)
    ensures Pow(a * b, e) == Pow(a, e) * Pow(b, e)
    decreases e
  {
    if e > 0 {
      var p, q := Pow(a, e - 1), Pow(b, e - 1);
      PowOfProduct(a, b, e - 1);
      assert (a * b) * (p * q) == (a * p) * (b * q);
    }
  }

  lemma MultipleIsFarFromZero(n: int, d: int)
    requires n > 0
    ensures (d >= 1 ==> n * d >= n) && (d <= -1 ==> n * d <= -n)
  {
  }

  lemma RemainderIsUnique(x: int, n: int, q: int, r: int)
    requires 0 <= r < n && x == n * q + r
    ensures x % n == r
  {
    var d := q - x / n;
    assert n * d == x % n - r;
    MultipleIsFarFromZero(n, d);
  }

  lemma DivDiv(n: nat, a: int, b: int)
    requires a > 0 && b > 0
    ensures a * b > 0 && (n / a) / b == n / (a * b)
  {
    var m := n / a;
    ProductBounds(a, b, m % b, n % a);
    Expand(a, b, m / b, m % b);
    QuotientIsUnique(n, a * b, m / b, a * (m % b) + n % a);
  }

  lemma Expand(a: int, b: int, q: int, r: int)
    ensures a * (b * q + r) == (a * b) * q + a * r
  {
    MulAssociates(a, b, q);
  }

  lemma ProductBounds(a: int, b: int, r: int, s: int)
    requires a > 0 && 0 <= r < b && 0 <= s < a
    ensures a * b > 0 && 0 <= a * r + s < a * b
  {
    MulMonotone(a, r, b - 1);
    MulMonotone(a, 0, r);
  }

  lemma MulMonotone(a: int, x: int, y: int)
    requires a > 0 && x <= y
    ensures a * x <= a * y
  {
  }

  lemma QuotientIsUnique(x: int, n: int, q: int, r: int)
    requires 0 <= r < n && x == n * q + r
    ensures x / n == q
  {
    var d := q - x / n;
    assert n * d == x % n - r;
    MultipleIsFarFromZero(n, d);
  }

  lemma ModAddMultiple(x: int, k: int, n: int)
    requires n > 0
    ensures (x + n * k) % n == x % n
  {
    RemainderIsUnique(x + n * k, n, x / n + k, x % n);
  }

  lemma ModMul(a: int, b: int, n: int)
    requires n > 0
    ensures ((a % n) * b) % n == (a * b) % n
  {
    var q := a / n;
    assert a * b == (a % n) * b + n * (q * b) by {
      assert a == n * q + a % n;
      assert (n * q + a % n) * b == (n * q) * b + (a % n) * b;
      assert (n * q) * b == n * (q * b);
    }
    ModAddMultiple((a % n) * b, q * b, n);
  }

  /** Reducing the base first does not change a modular power. */
  lemma {:induction false} PowMod(a: int, e: nat, n: int)
    requires n > 0
    ensures Pow(a % n, e) % n == Pow(a, e) % n
    decreases e
  {
    if e > 0 {
      var p, r := Pow(a, e - 1), Pow(a % n, e - 1);
      PowMod(a, e - 1, n);
      ModMul(a, r, n);
      ModMul(r, a, n);
      ModMul(p, a, n);
      assert a * r == r * a && a * p == p * a;
    }
  }

  lemma PowCong(a: int, b: int, e: nat, n: int)
    requires n > 0 && a % n == b % n
    ensures Pow(a, e) % n == Pow(b, e) % n
  {
    PowMod(a, e, n);
    PowMod(b, e, n);
  }
}
