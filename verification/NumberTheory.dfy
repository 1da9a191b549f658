/**
 Fermat's little theorem, from Euclid's lemma and the binomial theorem.
 */
module NumberTheory {
  import opened Bytes

  ghost predicate Prime(p: nat) {
    p >= 2 && forall d :: 2 <= d < p ==> p % d != 0
  }

  /** `a` and `b` leave the same remainder modulo `p`. */
  ghost predicate Cong(a: nat, b: nat, p: nat)
    requires p > 0
  {
    a % p == b % p
  }

  // ---------------------------------------------------------------- remainders

  lemma Distribute(a: int, b: int, c: int)
    ensures (a + b) * c == a * c + b * c && c * (a + b) == c * a + c * b && (a - b) * c == a * c - b * c
  {
  }

  lemma AtLeast(d: int, p: nat)
    requires d >= 1
    ensures d * p >= p
  {
    Distribute(d - 1, 1, p);
    assert (d - 1) * p >= 0;
  }

  lemma RemainderUnique(a: int, q: int, r: int, p: nat)
    requires p > 0 && a == q * p + r && 0 <= r < p
    ensures a % p == r
  {
    var q', r' := a / p, a % p;
    assert a == q' * p + r';
    if q < q' {
      Distribute(q', q, p);
      AtLeast(q' - q, p);
    } else if q > q' {
      Distribute(q, q', p);
      AtLeast(q - q', p);
    }
  }

  /** Adding a multiple of `p` does not change the remainder. */
  lemma AddMultiple(a: int, k: int, p: nat)
    requires p > 0
    ensures (a + k * p) % p == a % p
  {
    assert a == (a / p) * p + a % p;
    assert a + k * p == (a / p + k) * p + a % p;
    RemainderUnique(a + k * p, a / p + k, a % p, p);
  }

  lemma CongMul(a: nat, b: nat, c: nat, d: nat, p: nat)
    requires p > 0 && Cong(a, b, p) && Cong(c, d, p)
    ensures Cong(a * c, b * d, p)
  {
    MulRemainder(a, c, p);
    MulRemainder(b, d, p);
  }

  lemma MulRemainder(a: nat, c: nat, p: nat)
    requires p > 0
    ensures (a * c) % p == ((a % p) * (c % p)) % p
  {
    var q, r := a / p, a % p;
    var s, t := c / p, c % p;
    assert a == q * p + r && c == s * p + t;
    calc {
      a * c;
      (q * p + r) * c;
      q * p * c + r * (s * p + t);
      r * t + (q * c + r * s) * p;
    }
    AddMultiple(r * t, q * c + r * s, p);
  }

  lemma CongAdd(a: nat, b: nat, c: nat, d: nat, p: nat)
    requires p > 0 && Cong(a, b, p) && Cong(c, d, p)
    ensures Cong(a + c, b + d, p)
  {
    AddRemainder(a, c, p);
    AddRemainder(b, d, p);
  }

  lemma AddRemainder(a: nat, c: nat, p: nat)
    requires p > 0
    ensures (a + c) % p == (a % p + c % p) % p
  {
    assert a + c == a % p + c % p + (a / p + c / p) * p;
    AddMultiple(a % p + c % p, a / p + c / p, p);
  }

  lemma {:induction false} CongPow(a: nat, b: nat, n: nat, p: nat)
    requires p > 0 && Cong(a, b, p)
    ensures Cong(Pow(a, n), Pow(b, n), p)
  {
    if n > 0 {
      CongPow(a, b, n - 1, p);
      CongMul(a, b, Pow(a, n - 1), Pow(b, n - 1), p);
    }
  }

  /** A number is congruent to its remainder. */
  lemma CongRemainder(a: nat, p: nat)
    requires p > 0
    ensures Cong(a % p, a, p)
  {
    RemainderUnique(a % p, 0, a % p, p);
  }

  // ---------------------------------------------------------------- powers

  lemma {:induction false} PowAdd(a: nat, m: nat, n: nat)
    ensures Pow(a, m + n) == Pow(a, m) * Pow(a, n)
  {
    if m > 0 {
      PowAdd(a, m - 1, n);
      assert Pow(a, m + n) == a * Pow(a, m - 1 + n);
    }
  }

  lemma {:induction false} PowPow(a: nat, m: nat, n: nat)
    ensures Pow(Pow(a, m), n) == Pow(a, m * n)
  {
    if n > 0 {
      PowPow(a, m, n - 1);
      PowAdd(a, m, m * (n - 1));
      assert m + m * (n - 1) == m * n;
    } else {
      assert m * n == 0;
    }
  }

  lemma {:induction false} PowOne(n: nat)
    ensures Pow(1, n) == 1
  {
    if n > 0 {
      PowOne(n - 1);
    }
  }

  // ---------------------------------------------------------------- Euclid's lemma

  /** A prime that divides `a * b` but not `a` divides `b`. */
  lemma {:induction false} Euclid(p: nat, a: nat, b: nat)
    requires Prime(p) && 0 < a < p && (a * b) % p == 0
    ensures b % p == 0
    decreases a
  {
    if a > 1 {
      var q, r := p / a, p % a;
      assert p == q * a + r && 0 < r < a;
      calc {
        r * b;
        (p - q * a) * b;
        p * b - q * (a * b);
      }
      var t := (a * b) / p;
      assert a * b == t * p;
      assert r * b == (b - q * t) * p + 0 by {
        assert q * (a * b) == q * t * p;
      }
      RemainderUnique(r * b, b - q * t, 0, p);
      Euclid(p, r, b);
    }
  }

  // ---------------------------------------------------------------- the binomial theorem

  function Choose(n: nat, k: nat): nat {
    if k == 0 then 1 else if n == 0 then 0 else Choose(n - 1, k - 1) + Choose(n - 1, k)
  }

  lemma {:induction false} ChooseAbove(n: nat, k: nat)
    requires k > n
    ensures Choose(n, k) == 0
  {
    if n > 0 {
      ChooseAbove(n - 1, k - 1);
      ChooseAbove(n - 1, k);
    }
  }

  lemma {:induction false} ChooseAll(n: nat)
    ensures Choose(n, n) == 1
  {
    if n > 0 {
      ChooseAll(n - 1);
      ChooseAbove(n - 1, n);
    }
  }

  /** k C(n, k) = n C(n - 1, k - 1). */
  lemma {:induction false} Absorption(n: nat, k: nat)
    requires n > 0 && k > 0
    ensures k * Choose(n, k) == n * Choose(n - 1, k - 1)
  {
    if n == 1 {
      if k > 1 {
        ChooseAbove(1, k);
        ChooseAbove(0, k - 1);
      }
    } else {
      Absorption(n - 1, k);
      var c, d := Choose(n - 1, k - 1), Choose(n - 1, k);
      Distribute(c, d, k);
      Distribute(n - 1, 1, c);
      if k > 1 {
        Absorption(n - 1, k - 1);
        Distribute(k - 1, 1, c);
        Distribute(Choose(n - 2, k - 2), Choose(n - 2, k - 1), n - 1);
      } else {
        assert c == 1 && Choose(n - 2, 0) == 1;
      }
    }
  }

  /** The sum of C(n, k) a^k over k below `m`. */
  function BinomialSum(n: nat, m: nat, a: nat): nat {
    if m == 0 then 0 else BinomialSum(n, m - 1, a) + Choose(n, m - 1) * Pow(a, m - 1)
  }

  /** Pascal's rule, summed. */
  lemma {:induction false} PascalSum(n: nat, m: nat, a: nat)
    ensures BinomialSum(n + 1, m + 1, a) == BinomialSum(n, m + 1, a) + a * BinomialSum(n, m, a)
  {
    if m == 0 {
      assert BinomialSum(n + 1, 0, a) == 0 && BinomialSum(n, 0, a) == 0;
    } else {
      PascalSum(n, m - 1, a);
      var x, y, z := Choose(n, m - 1), Choose(n, m), Pow(a, m - 1);
      Distribute(x, y, Pow(a, m));
      Commute(x, a, z);
      Distribute(BinomialSum(n, m - 1, a), x * z, a);
    }
  }

  lemma Commute(x: int, a: int, z: int)
    ensures x * (a * z) == a * (x * z)
  {
  }

  lemma {:induction false} Binomial(n: nat, a: nat)
    ensures Pow(a + 1, n) == BinomialSum(n, n + 1, a)
  {
    if n == 0 {
      assert BinomialSum(0, 1, a) == BinomialSum(0, 0, a) + Choose(0, 0) * Pow(a, 0);
    } else {
      Binomial(n - 1, a);
      PascalSum(n - 1, n, a);
      ChooseAbove(n - 1, n);
      var s := BinomialSum(n - 1, n, a);
      assert BinomialSum(n - 1, n + 1, a) == s + 0 * Pow(a, n);
      assert (a + 1) * s == s + a * s;
    }
  }

  // ---------------------------------------------------------------- Fermat

  lemma ChoosePrime(p: nat, k: nat)
    requires Prime(p) && 0 < k < p
    ensures Choose(p, k) % p == 0
  {
    Absorption(p, k);
    RemainderUnique(p * Choose(p - 1, k - 1), Choose(p - 1, k - 1), 0, p);
    Euclid(p, k, Choose(p, k));
  }

  /** All but the outermost terms of (a + 1)^p vanish modulo p. */
  lemma {:induction false} InnerTerms(p: nat, m: nat, a: nat)
    requires Prime(p) && 1 <= m <= p
    ensures Cong(BinomialSum(p, m, a), 1, p)
  {
    if m == 1 {
      assert BinomialSum(p, 1, a) == BinomialSum(p, 0, a) + Choose(p, 0) * Pow(a, 0) == 1;
    } else {
      InnerTerms(p, m - 1, a);
      ChoosePrime(p, m - 1);
      var c := Choose(p, m - 1);
      CongMul(c, 0, Pow(a, m - 1), Pow(a, m - 1), p);
      CongAdd(BinomialSum(p, m - 1, a), 1, c * Pow(a, m - 1), 0, p);
    }
  }

  /** (a + 1)^p = a^p + 1 modulo p. */
  lemma Freshman(p: nat, a: nat)
    requires Prime(p)
    ensures Cong(Pow(a + 1, p), Pow(a, p) + 1, p)
  {
    Binomial(p, a);
    InnerTerms(p, p, a);
    ChooseAll(p);
    assert BinomialSum(p, p + 1, a) == BinomialSum(p, p, a) + 1 * Pow(a, p);
    CongAdd(BinomialSum(p, p, a), 1, Pow(a, p), Pow(a, p), p);
  }

  /** a^p = a modulo p. */
  lemma {:induction false} FermatPower(p: nat, a: nat)
    requires Prime(p)
    ensures Cong(Pow(a, p), a, p)
  {
    if a == 0 {
      assert Pow(0, p) == 0 * Pow(0, p - 1);
    } else {
      FermatPower(p, a - 1);
      Freshman(p, a - 1);
      CongAdd(Pow(a - 1, p), a - 1, 1, 1, p);
    }
  }

  /** Fermat's little theorem: a^(p-1) = 1 modulo p, for a prime p that does not divide a. */
  lemma Fermat(p: nat, a: nat)
    requires Prime(p) && a % p != 0
    ensures Cong(Pow(a, p - 1), 1, p)
  {
    FermatPower(p, a);
    PowPositive(a, p - 1);
    var d := Pow(a, p - 1) - 1;
    Distribute(d, 1, a);
    assert Pow(a, p) == a * d + a;
    CancelSummand(a * d, a, p);
    MulRemainder(a, d, p);
    CongRemainder(a, p);
    MulRemainder(a % p, d, p);
    Euclid(p, a % p, d);
    CongAdd(d, 0, 1, 1, p);
  }

  /** If `x + a` and `a` agree modulo `p`, then `p` divides `x`. */
  lemma CancelSummand(x: nat, a: nat, p: nat)
    requires p > 0 && Cong(x + a, a, p)
    ensures x % p == 0
  {
    var t := (x + a) / p - a / p;
    Distribute((x + a) / p, a / p, p);
    RemainderUnique(x, t, 0, p);
  }
}
