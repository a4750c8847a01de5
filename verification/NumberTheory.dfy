/**
 The number theory RSA rests on: congruences, inverses modulo a prime, the binomial theorem,
 Fermat's little theorem and the Chinese remainder theorem for two primes.
 */
module NumberTheory {

  function Pow(b: int, e: nat): int {
    if e == 0 then 1 else b * Pow(b, e - 1)
  }

  ghost predicate IsPrime(p: nat) {
    2 <= p && forall d :: 2 <= d < p ==> p % d != 0
  }

  predicate Cong(a: int, b: int, m: nat)
    requires m > 0
  {
    a % m == b % m
  }

  // ------------------------------------------------------------------- congruences

  lemma DivModUnique(x: int, m: nat, q: int, r: int)
    requires 0 <= r < m && x == q * m + r
    ensures x / m == q && x % m == r
  {
    var d := q - x / m;
    assert d * m == x % m - r by {
      assert x == (x / m) * m + x % m;
      assert d * m == q * m - (x / m) * m;
    }
    MulBounds(d, m);
  }

  lemma MulBounds(d: int, m: nat)
    ensures d >= 1 ==> d * m >= m
    ensures d <= -1 ==> d * m <= -(m as int)
  {
    assert d * m == (d - 1) * m + m;
    assert d * m == (d + 1) * m - m;
  }

  lemma CongIntro(a: int, b: int, m: nat, k: int)
    requires m > 0 && a == b + k * m
    ensures Cong(a, b, m)
  {
    var q, r := b / m, b % m;
    assert a == (q + k) * m + r;
    DivModUnique(a, m, q + k, r);
  }

  lemma CongElim(a: int, b: int, m: nat) returns (k: int)
    requires m > 0 && Cong(a, b, m)
    ensures a == b + k * m
  {
    k := a / m - b / m;
    assert a == (a / m) * m + a % m && b == (b / m) * m + b % m;
    assert k * m == (a / m) * m - (b / m) * m;
  }

  lemma CongMul(a: int, b: int, c: int, d: int, m: nat)
    requires m > 0 && Cong(a, b, m) && Cong(c, d, m)
    ensures Cong(a * c, b * d, m)
  {
    var k := CongElim(a, b, m);
    var l := CongElim(c, d, m);
    assert a * c == b * c + (k * c) * m;
    assert b * c == b * d + (b * l) * m;
    assert (k * c) * m + (b * l) * m == (k * c + b * l) * m;
    CongIntro(a * c, b * d, m, k * c + b * l);
  }

  lemma CongAdd(a: int, b: int, c: int, d: int, m: nat)
    requires m > 0 && Cong(a, b, m) && Cong(c, d, m)
    ensures Cong(a + c, b + d, m) && Cong(a - c, b - d, m)
  {
    var k := CongElim(a, b, m);
    var l := CongElim(c, d, m);
    assert (k + l) * m == k * m + l * m && (k - l) * m == k * m - l * m;
    CongIntro(a + c, b + d, m, k + l);
    CongIntro(a - c, b - d, m, k - l);
  }

  lemma CongMod(a: int, m: nat)
    requires m > 0
    ensures 0 <= a % m < m && Cong(a % m, a, m)
  {
    DivModUnique(a % m, m, 0, a % m);
  }

  lemma {:induction false} CongPow(a: int, b: int, e: nat, m: nat)
    requires m > 0 && Cong(a, b, m)
    ensures Cong(Pow(a, e), Pow(b, e), m)
  {
    if e > 0 {
      CongPow(a, b, e - 1, m);
      CongMul(a, b, Pow(a, e - 1), Pow(b, e - 1), m);
    }
  }

  lemma {:induction false} PowAdd(b: int, e: nat, f: nat)
    ensures Pow(b, e + f) == Pow(b, e) * Pow(b, f)
  {
    if e > 0 {
      PowAdd(b, e - 1, f);
      assert b * (Pow(b, e - 1) * Pow(b, f)) == (b * Pow(b, e - 1)) * Pow(b, f);
    }
  }

  lemma {:induction false} PowMul(b: int, e: nat, f: nat)
    ensures e * f >= 0 && Pow(b, e * f) == Pow(Pow(b, e), f)
  {
    if f > 0 {
      PowMul(b, e, f - 1);
      assert e * f == e + e * (f - 1);
      PowAdd(b, e, e * (f - 1));
    }
  }

  lemma {:induction false} PowOne(e: nat)
    ensures Pow(1, e) == 1
  {
    if e > 0 { PowOne(e - 1); }
  }

  lemma {:induction false} PowZero(e: nat)
    ensures Pow(0, e) == if e == 0 then 1 else 0
  {
  }

  // ------------------------------------------------------------ modulo a prime number

  /** Every nonzero residue has an inverse: descend along the remainders of p. */
  lemma {:induction false} InverseExists(a: nat, p: nat) returns (x: int)
    requires IsPrime(p) && 1 <= a < p
    ensures Cong(a * x, 1, p)
    decreases a
  {
    if a == 1 {
      x := 1;
    } else {
      var q, r := p / a, p % a;
      assert r != 0;
      var y := InverseExists(r, p);
      x := -q * y;
      assert a * x == r * y + (-y) * p by {
        assert p == a * q + r;
        assert (-y) * p == (-y) * (a * q) + (-y) * r;
        assert a * (-q * y) == (-y) * (a * q);
      }
      CongIntro(a * x, r * y, p, -y);
    }
  }

  lemma InverseOf(a: int, p: nat) returns (x: int)
    requires IsPrime(p) && a % p != 0
    ensures Cong(a * x, 1, p)
  {
    x := InverseExists(a % p, p);
    CongMod(a, p);
    CongMul(a % p, a, x, x, p);
  }

  /** Euclid's lemma. */
  lemma PrimeDividesFactor(p: nat, a: int, b: int)
    requires IsPrime(p) && (a * b) % p == 0 && a % p != 0
    ensures b % p == 0
  {
    var x := InverseOf(a, p);
    CongMul(a * x, 1, b, b, p);
    assert Cong(a * b, 0, p);
    CongMul(a * b, 0, x, x, p);
    assert (a * x) * b == (a * b) * x;
  }

  // --------------------------------------------------------------- binomial theorem

  function Choose(n: nat, k: nat): nat {
    if k == 0 then 1 else if n == 0 then 0 else Choose(n - 1, k - 1) + Choose(n - 1, k)
  }

  lemma {:induction false} ChooseBeyond(n: nat, k: nat)
    requires k > n
    ensures Choose(n, k) == 0
  {
    if n > 0 {
      ChooseBeyond(n - 1, k - 1);
      ChooseBeyond(n - 1, k);
    }
  }

  lemma AbsorptionArithmetic(n: int, k: int, c: int, d: int, e: int, f: int)
    requires (k - 1) * c == (n - 1) * e && k * d == (n - 1) * f && c == e + f
    ensures k * (c + d) == n * c
  {
    assert k * (c + d) == (k - 1) * c + c + k * d;
    assert (n - 1) * e + (n - 1) * f == (n - 1) * c;
  }

  lemma {:induction false} ChooseAbsorption(n: nat, k: nat)
    requires n >= 1 && k >= 1
    ensures k * Choose(n, k) == n * Choose(n - 1, k - 1)
  {
    if n == 1 {
      if k > 1 { ChooseBeyond(1, k); ChooseBeyond(0, k - 1); }
    } else {
      ChooseAbsorption(n - 1, k);
      if k > 1 {
        ChooseAbsorption(n - 1, k - 1);
        AbsorptionArithmetic(n, k, Choose(n - 1, k - 1), Choose(n - 1, k), Choose(n - 2, k - 2), Choose(n - 2, k - 1));
      } else {
        assert Choose(n, 1) == Choose(n - 1, 0) + Choose(n - 1, 1);
      }
    }
  }

  /** The first `k` terms of the expansion of (a+1)^n. */
  function Expansion(n: nat, a: nat, k: nat): int {
    if k == 0 then 0 else Expansion(n, a, k - 1) + Choose(n, k - 1) * Pow(a, k - 1)
  }

  lemma TermStep(c: int, d: int, w: int, a: int, x: int)
    ensures (c + d) * (a * w) == d * (a * w) + a * (c * w)
    ensures a * (x + c * w) == a * x + a * (c * w)
  {
    assert c * (a * w) == a * (c * w);
  }

  lemma {:induction false} ExpansionStep(n: nat, a: nat, k: nat)
    ensures Expansion(n + 1, a, k + 1) == Expansion(n, a, k + 1) + a * Expansion(n, a, k)
  {
    if k > 0 {
      ExpansionStep(n, a, k - 1);
      TermStep(Choose(n, k - 1), Choose(n, k), Pow(a, k - 1), a, Expansion(n, a, k - 1));
    } else {
      assert Expansion(n, a, 0) == 0 && Expansion(n, a, 1) == Choose(n, 0) * Pow(a, 0);
      assert Expansion(n + 1, a, 1) == Expansion(n + 1, a, 0) + Choose(n + 1, 0) * Pow(a, 0);
    }
  }

  lemma {:induction false} BinomialTheorem(n: nat, a: nat)
    ensures Expansion(n, a, n + 1) == Pow(a + 1, n)
  {
    if n == 0 {
      assert Expansion(0, a, 1) == Expansion(0, a, 0) + Choose(0, 0) * Pow(a, 0);
    } else {
      BinomialTheorem(n - 1, a);
      ExpansionStep(n - 1, a, n);
      ChooseBeyond(n - 1, n);
      assert Expansion(n - 1, a, n + 1) == Expansion(n - 1, a, n);
      assert (a + 1) * Pow(a + 1, n - 1) == Pow(a + 1, n - 1) + a * Pow(a + 1, n - 1);
    }
  }

  // ---------------------------------------------------------- Fermat's little theorem

  lemma PrimeDividesChoose(p: nat, k: nat)
    requires IsPrime(p) && 1 <= k < p
    ensures Choose(p, k) % p == 0
  {
    ChooseAbsorption(p, k);
    CongIntro(k * Choose(p, k), 0, p, Choose(p - 1, k - 1));
    DivModUnique(0, p, 0, 0);
    DivModUnique(k, p, 0, k);
    PrimeDividesFactor(p, k, Choose(p, k));
  }

  lemma {:induction false} ExpansionModPrime(p: nat, a: nat, k: nat)
    requires IsPrime(p) && 1 <= k <= p
    ensures Cong(Expansion(p, a, k), 1, p)
  {
    if k == 1 {
      assert Expansion(p, a, 1) == Expansion(p, a, 0) + Choose(p, 0) * Pow(a, 0);
    } else {
      ExpansionModPrime(p, a, k - 1);
      PrimeDividesChoose(p, k - 1);
      DivModUnique(0, p, 0, 0);
      CongMul(Choose(p, k - 1), 0, Pow(a, k - 1), Pow(a, k - 1), p);
      CongAdd(Expansion(p, a, k - 1), 1, Choose(p, k - 1) * Pow(a, k - 1), 0, p);
    }
  }

  lemma {:induction false} FermatPower(p: nat, a: nat)
    requires IsPrime(p)
    ensures Cong(Pow(a, p), a, p)
  {
    if a == 0 {
      PowZero(p);
    } else {
      FermatPower(p, a - 1);
      BinomialTheorem(p, a - 1);
      ExpansionModPrime(p, a - 1, p);
      assert Expansion(p, a - 1, p + 1) == Expansion(p, a - 1, p) + Choose(p, p) * Pow(a - 1, p);
      ChooseAll(p);
      CongAdd(Expansion(p, a - 1, p), 1, Pow(a - 1, p), a - 1, p);
    }
  }

  lemma {:induction false} ChooseAll(n: nat)
    ensures Choose(n, n) == 1
  {
    if n > 0 {
      ChooseAll(n - 1);
      ChooseBeyond(n - 1, n);
    }
  }

  lemma FermatLittle(p: nat, a: nat)
    requires IsPrime(p) && a % p != 0
    ensures Cong(Pow(a, p - 1), 1, p)
  {
    FermatPower(p, a);
    var k := CongElim(Pow(a, p), a, p);
    assert a * (Pow(a, p - 1) - 1) == k * p;
    CongIntro(a * (Pow(a, p - 1) - 1), 0, p, k);
    DivModUnique(0, p, 0, 0);
    PrimeDividesFactor(p, a, Pow(a, p - 1) - 1);
    CongAdd(Pow(a, p - 1) - 1, 0, 1, 1, p);
  }

  /** For a base the prime does not divide, exponents count modulo p-1. */
  lemma ReduceExponent(p: nat, m: nat, d: nat)
    requires IsPrime(p) && m % p != 0
    ensures Cong(Pow(m, d), Pow(m, d % (p - 1)), p)
  {
    var q, r := d / (p - 1), d % (p - 1);
    assert d == (p - 1) * q + r;
    PowMul(m, p - 1, q);
    PowAdd(m, (p - 1) * q, r);
    FermatLittle(p, m);
    CongPow(Pow(m, p - 1), 1, q, p);
    PowOne(q);
    CongMul(Pow(Pow(m, p - 1), q), 1, Pow(m, r), Pow(m, r), p);
  }

  // ---------------------------------------------------------- Chinese remainder theorem

  lemma DistinctPrimesDoNotDivide(p: nat, q: nat)
    requires IsPrime(p) && IsPrime(q)
    ensures q % p == 0 <==> p == q
  {
    if p == q {
      DivModUnique(q, p, 1, 0);
    } else if p < q {
      assert q % p != 0;
    } else {
      DivModUnique(q, p, 0, q);
    }
  }

  /** Two residues modulo distinct primes fix a number modulo their product. */
  lemma ResiduesDetermine(p: nat, q: nat, x: int, y: int)
    requires IsPrime(p) && IsPrime(q) && p != q
    requires Cong(x, y, p) && Cong(x, y, q)
    ensures p * q > 0 && Cong(x, y, p * q)
  {
    assert p * q > 0;
    var k := CongElim(x, y, p);
    var l := CongElim(x, y, q);
    DistinctPrimesDoNotDivide(q, p);
    DivModUnique(0, q, 0, 0);
    CongIntro(p * k, 0, q, l);
    PrimeDividesFactor(q, p, k);
    var j := CongElim(k, 0, q);
    assert x == y + j * (p * q) by {
      assert k * p == (j * q) * p == j * (p * q);
    }
    CongIntro(x, y, p * q, j);
  }

  lemma CongOfProduct(p: nat, q: nat, x: int, y: int)
    requires p > 0 && q > 0 && p * q > 0 && Cong(x, y, p * q)
    ensures Cong(x, y, p) && Cong(x, y, q)
  {
    var k := CongElim(x, y, p * q);
    assert k * (p * q) == (k * q) * p == (k * p) * q;
    CongIntro(x, y, p, k * q);
    CongIntro(x, y, q, k * p);
  }
}
