/** What division with remainder is, where the solver needs to be told. */
module Division {

  lemma QuotientUnique(n: nat, q: nat, r: nat, q': nat, r': nat)
    requires r < n && r' < n && n * q + r == n * q' + r'
    ensures q == q' && r == r'
  {
    if q < q' {
      AtLeastOnce(n, q' - q);
    } else if q' < q {
      AtLeastOnce(n, q - q');
    }
  }

  lemma AtLeastOnce(n: nat, d: nat)
    requires d > 0
    ensures n * d >= n
  {
    assert n * d == n + n * (d - 1);
  }

  /** `x` is `n` times its quotient, and the remainder. */
  lemma DivMod(x: nat, n: nat)
    requires n > 0
    ensures x == n * (x / n) + x % n && x % n < n
  {
  }

  lemma DivIs(x: nat, n: nat, q: nat, r: nat)
    requires r < n && x == n * q + r
    ensures x / n == q && x % n == r
  {
    DivMod(x, n);
    QuotientUnique(n, q, r, x / n, x % n);
  }

  lemma DivNext(x: nat, n: nat)
    requires n > 0
    ensures var (q, r) := (x / n, x % n);
            if r + 1 < n then (x + 1) / n == q && (x + 1) % n == r + 1
            else (x + 1) / n == q + 1 && (x + 1) % n == 0
  {
    DivMod(x, n);
    NextOf(x, n, x / n, x % n);
  }

  lemma NextOf(x: nat, n: nat, q: nat, r: nat)
    requires r < n && x == n * q + r
    ensures if r + 1 < n then (x + 1) / n == q && (x + 1) % n == r + 1
            else (x + 1) / n == q + 1 && (x + 1) % n == 0
  {
    if r + 1 < n {
      DivIs(x + 1, n, q, r + 1);
    } else {
      assert n * (q + 1) == n * q + n;
      DivIs(x + 1, n, q + 1, 0);
    }
  }

  /** The quotient of a sum of two numbers given by quotient and remainder. */
  lemma SumOf(n: nat, a: nat, s: nat, b: nat, t: nat)
    requires s < n && t < n
    ensures (n * a + s + (n * b + t)) / n == a + b + if s + t < n then 0 else 1
  {
    assert n * a + n * b == n * (a + b);
    if s + t < n {
      DivIs(n * a + s + (n * b + t), n, a + b, s + t);
    } else {
      assert n * (a + b + 1) == n * (a + b) + n;
      DivIs(n * a + s + (n * b + t), n, a + b + 1, s + t - n);
    }
  }

  lemma RoundedUp(k: nat, n: nat)
    requires n > 0
    ensures (k + n - 1) / n == k / n + if k % n == 0 then 0 else 1
  {
    DivMod(k, n);
    var b, t := k / n, k % n;
    if t == 0 {
      DivIs(k + n - 1, n, b, n - 1);
    } else {
      assert n * (b + 1) == n * b + n;
      DivIs(k + n - 1, n, b + 1, t - 1);
    }
  }

  /** Quotients `k` apart differ by `k / n`, rounded one way or the other. */
  lemma DivApart(y: nat, k: nat, n: nat)
    requires n > 0
    ensures k / n <= (y + k) / n - y / n <= (k + n - 1) / n
  {
    DivMod(y, n);
    DivMod(k, n);
    SumOf(n, y / n, y % n, k / n, k % n);
    RoundedUp(k, n);
  }

  lemma ModOfMod(x: nat, m: nat, n: nat)
    requires n > 0 && m > 0 && m % n == 0
    ensures (x % m) % n == x % n
  {
    DivMod(x, m);
    DivMod(m, n);
    DivMod(x % m, n);
    SameRemainder(x, m, n, m / n, x / m, (x % m) / n, (x % m) % n);
  }

  lemma SameRemainder(x: nat, m: nat, n: nat, c: nat, q: nat, a: nat, s: nat)
    requires s < n && m == n * c && x == m * q + (n * a + s)
    ensures x % n == s
  {
    Distribute(n, c * q, a);
    MulAssoc(n, c, q);
    DivIs(x, n, c * q + a, s);
  }

  lemma Distribute(n: nat, k: nat, a: nat)
    ensures n * (k + a) == n * k + n * a
  {
  }

  lemma MulAssoc(n: nat, c: nat, q: nat)
    ensures (n * c) * q == n * (c * q)
  {
  }

  lemma AtMostQuotient(q: nat, d: nat, n: nat)
    requires d > 0 && q * d <= n
    ensures q <= n / d
  {
    DivMod(n, d);
    if q > n / d {
      Times(q, n / d + 1, d);
    }
  }

  lemma Times(a: nat, b: nat, c: nat)
    requires a >= b
    ensures a * c >= b * c
  {
  }
}
