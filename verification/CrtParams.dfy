/**
 The CRT parameters the runner derives for its RSA key (`compute_crt_params`,
 crates/protocol/src/auth.rs), and what they are for: the two-prime private-key operation of
 section 5.1.2 of RFC 8017.
 */
module CrtParams {
  import opened NumberTheory

  type byte = n: nat | n < 256

  datatype KeyError = BadP | BadQ | BadD
  datatype Params<T> = Params(exponent1: T, exponent2: T, coefficient: T)
  datatype Result<T> = Ok(params: Params<T>) | Err(error: KeyError)

  // ------------------------------------------------------------ big-endian integers

  function FromBytes(bytes: seq<byte>): nat {
    if bytes == [] then 0 else FromBytes(bytes[..|bytes| - 1]) * 256 + bytes[|bytes| - 1]
  }

  /** Minimal big-endian digits; zero is one zero byte. */
  function ToBytes(n: nat): (bytes: seq<byte>)
    ensures bytes != []
    ensures FromBytes(bytes) == n
    ensures n > 0 ==> bytes[0] != 0
  {
    if n < 256 then
      assert FromBytes([n][..0]) == 0;
      [n]
    else
      var front := ToBytes(n / 256);
      var last: byte := n % 256;
      assert (front + [last])[..|front|] == front;
      front + [last]
  }

  // ------------------------------------------------------------------- the function

  function ModPow(b: nat, e: nat, m: nat): nat
    requires m > 0
  {
    Pow(b, e) % m
  }

  /** The guards and the arithmetic, on the decoded integers. */
  function CrtParamsOf(d: nat, p: nat, q: nat): Result<nat> {
    if p <= 1 then Err(BadP)
    else if q <= 1 then Err(BadQ)
    else if d < 1 then Err(BadD)
    else Ok(Params(d % (p - 1), d % (q - 1), ModPow(q, p - 2, p)))
  }

  /** `compute_crt_params`: byte strings in, byte strings out. */
  function ComputeCrtParams(dBytes: seq<byte>, pBytes: seq<byte>, qBytes: seq<byte>): Result<seq<byte>> {
    match CrtParamsOf(FromBytes(dBytes), FromBytes(pBytes), FromBytes(qBytes))
    case Err(e) => Err(e)
    case Ok(ps) => Ok(Params(ToBytes(ps.exponent1), ToBytes(ps.exponent2), ToBytes(ps.coefficient)))
  }

  function Decode(params: Params<seq<byte>>): Params<nat> {
    Params(FromBytes(params.exponent1), FromBytes(params.exponent2), FromBytes(params.coefficient))
  }

  /** Section 5.1.2 of RFC 8017: two powers modulo the primes, recombined. */
  function Garner(c: nat, p: nat, q: nat, dP: nat, dQ: nat, qInv: nat): int
    requires p > 0 && q > 0
  {
    var m1 := ModPow(c, dP, p);
    var m2 := ModPow(c, dQ, q);
    var h := ((m1 - m2) * qInv) % p;
    m2 + q * h
  }

  /** The private-key operation with the derived parameters. */
  function CrtPower(c: nat, p: nat, q: nat, params: Params<nat>): int
    requires p > 0 && q > 0
  {
    Garner(c, p, q, params.exponent1, params.exponent2, params.coefficient)
  }

  // --------------------------------------------------------------------- exactness

  /** The byte strings read back as the parameters, refused exactly for a degenerate key. */
  lemma ParamsReadBack(dBytes: seq<byte>, pBytes: seq<byte>, qBytes: seq<byte>)
    ensures var d, p, q := FromBytes(dBytes), FromBytes(pBytes), FromBytes(qBytes);
            var r := ComputeCrtParams(dBytes, pBytes, qBytes);
            && (r == Err(BadP) <==> p < 2)
            && (r == Err(BadQ) <==> p >= 2 && q < 2)
            && (r == Err(BadD) <==> p >= 2 && q >= 2 && d == 0)
            && (r.Ok? ==> CrtParamsOf(d, p, q) == Ok(Decode(r.params)))
  {
    var n := CrtParamsOf(FromBytes(dBytes), FromBytes(pBytes), FromBytes(qBytes));
    if n.Ok? {
      EncodedReadsBack(n.params);
    }
  }

  lemma EncodedReadsBack(ps: Params<nat>)
    ensures Decode(Params(ToBytes(ps.exponent1), ToBytes(ps.exponent2), ToBytes(ps.coefficient))) == ps
  {
  }

  /** For a prime p the coefficient is the inverse of q exactly when p does not divide q. */
  lemma CoefficientInvertsIff(p: nat, q: nat)
    requires IsPrime(p)
    ensures Cong(ModPow(q, p - 2, p) * q, 1, p) <==> q % p != 0
  {
    var c := Pow(q, p - 2);
    CongMod(c, p);
    CongMul(c % p, c, q, q, p);
    assert c * q == Pow(q, p - 1);
    DivModUnique(1, p, 0, 1);
    if q % p != 0 {
      FermatLittle(p, q);
    } else {
      DivModUnique(0, p, 0, 0);
      CongMul(c, c, q, 0, p);
    }
  }

  lemma PowOfMultiple(p: nat, m: nat, e: nat)
    requires p >= 2 && m % p == 0
    ensures Pow(m, e) % p == if e == 0 then 1 else 0
  {
    DivModUnique(0, p, 0, 0);
    DivModUnique(1, p, 0, 1);
    CongPow(m, 0, e, p);
    PowZero(e);
  }

  /**
   The reduced exponent acts as the private exponent on a base m exactly when p does not divide
   m or the reduced exponent is not zero.
   */
  lemma ExponentAgreesIff(p: nat, d: nat, m: nat)
    requires IsPrime(p) && d >= 1
    ensures Cong(Pow(m, d % (p - 1)), Pow(m, d), p) <==> m % p != 0 || d % (p - 1) != 0
  {
    if m % p != 0 {
      ReduceExponent(p, m, d);
    } else {
      PowOfMultiple(p, m, d);
      PowOfMultiple(p, m, d % (p - 1));
    }
  }

  lemma Regroup(q: int, x: int, y: int)
    ensures q * (x * y) == x * (y * q)
  {
  }

  lemma RecombinedRange(p: nat, q: nat, m2: nat, h: nat)
    requires m2 < q && h < p
    ensures 0 <= m2 + q * h < p * q
  {
    MulMono(q, h + 1, p);
    assert q * (h + 1) == q * h + q;
  }

  lemma MulMono(q: nat, a: nat, b: nat)
    requires a <= b
    ensures 0 <= q * a <= q * b
  {
    assert q * b == q * a + q * (b - a);
  }

  /** The recombined value has the two partial results as its residues. */
  lemma GarnerResidues(p: nat, q: nat, m1: nat, m2: nat, qInv: nat)
    requires IsPrime(p) && IsPrime(q) && p != q && m1 < p && m2 < q
    requires Cong(qInv * q, 1, p)
    ensures var m := m2 + q * (((m1 - m2) * qInv) % p);
            Cong(m, m1, p) && Cong(m, m2, q) && 0 <= m < p * q
  {
    var x := (m1 - m2) * qInv;
    var h := x % p;
    CongMod(x, p);
    CongMul(q, q, h, x, p);
    Regroup(q, m1 - m2, qInv);
    CongMul(m1 - m2, m1 - m2, qInv * q, 1, p);
    CongAdd(m2, m2, q * h, m1 - m2, p);
    CongIntro(m2 + q * h, m2, q, h);
    RecombinedRange(p, q, m2, h);
  }

  ghost predicate ComputesPower(m: int, c: nat, d: nat, p: nat, q: nat)
    requires p > 1 && q > 1
  {
    && 0 <= m < p * q
    && (m == Pow(c, d) % (p * q)
        <==> (c % p != 0 || d % (p - 1) != 0) && (c % q != 0 || d % (q - 1) != 0))
  }

  lemma GarnerIsPowerIff(p: nat, q: nat, d: nat, c: nat)
    requires IsPrime(p) && IsPrime(q) && p != q && d >= 1
    ensures ComputesPower(Garner(c, p, q, d % (p - 1), d % (q - 1), ModPow(q, p - 2, p)), c, d, p, q)
  {
    var m1, m2 := ModPow(c, d % (p - 1), p), ModPow(c, d % (q - 1), q);
    var m := Garner(c, p, q, d % (p - 1), d % (q - 1), ModPow(q, p - 2, p));
    DistinctPrimesDoNotDivide(p, q);
    CoefficientInvertsIff(p, q);
    GarnerResidues(p, q, m1, m2, ModPow(q, p - 2, p));
    CongMod(Pow(c, d % (p - 1)), p);
    CongMod(Pow(c, d % (q - 1)), q);
    ExponentAgreesIff(p, d, c);
    ExponentAgreesIff(q, d, c);
    PowerAgreesIff(p, q, m, Pow(c, d));
  }

  /**
   The whole operation, for every input: with distinct primes, the CRT steps compute c^d mod pq
   exactly when, for each prime, the prime does not divide c or its reduced exponent is not zero.
   */
  lemma CrtPowerIsPowerIff(d: nat, p: nat, q: nat, c: nat)
    requires IsPrime(p) && IsPrime(q) && p != q && d >= 1
    ensures var r := CrtParamsOf(d, p, q);
            && r.Ok?
            && 0 <= CrtPower(c, p, q, r.params) < p * q
            && (CrtPower(c, p, q, r.params) == Pow(c, d) % (p * q)
                <==> (c % p != 0 || d % (p - 1) != 0) && (c % q != 0 || d % (q - 1) != 0))
  {
    GarnerIsPowerIff(p, q, d, c);
  }

  lemma PowerAgreesIff(p: nat, q: nat, m: int, x: int)
    requires IsPrime(p) && IsPrime(q) && p != q && 0 <= m < p * q
    ensures m == x % (p * q) <==> Cong(m, x, p) && Cong(m, x, q)
  {
    var n := p * q;
    DivModUnique(m, n, 0, m);
    if Cong(m, x, p) && Cong(m, x, q) {
      ResiduesDetermine(p, q, m, x);
    }
    if m == x % n {
      CongOfProduct(p, q, m, x);
    }
  }

  // ------------------------------------------------------------------- decryption

  lemma InvertsModuloPrime(p: nat, e: nat, d: nat, m: nat)
    requires IsPrime(p) && (e * d) % (p - 1) == 1
    ensures e * d >= 0 && Cong(Pow(m, e * d), m, p)
  {
    if m % p != 0 {
      ReduceExponent(p, m, e * d);
      assert Pow(m, 1) == m * Pow(m, 0);
    } else {
      assert e * d != 0;
      PowOfMultiple(p, m, e * d);
    }
  }

  lemma PrivateExponentIsReducedNonzero(p: nat, e: nat, d: nat)
    requires p > 2 && (e * d) % (p - 1) == 1
    ensures d % (p - 1) != 0
  {
    if d % (p - 1) == 0 {
      DivModUnique(0, p - 1, 0, 0);
      CongMul(e, e, d, 0, p - 1);
    }
  }

  /**
   What the parameters are for: for distinct odd primes and e, d inverse modulo p-1 and q-1, the
   CRT steps undo the public operation on every message, multiples of p and q included.
   */
  lemma CrtDecryptsEveryMessage(d: nat, p: nat, q: nat, e: nat, m: nat)
    requires IsPrime(p) && IsPrime(q) && p != q && p > 2 && q > 2
    requires (e * d) % (p - 1) == 1 && (e * d) % (q - 1) == 1
    requires m < p * q
    ensures CrtParamsOf(d, p, q).Ok?
    ensures CrtPower(Pow(m, e) % (p * q), p, q, CrtParamsOf(d, p, q).params) == m
  {
    assert d != 0;
    PrivateExponentIsReducedNonzero(p, e, d);
    PrivateExponentIsReducedNonzero(q, e, d);
    var c := Pow(m, e) % (p * q);
    CrtPowerIsPowerIff(d, p, q, c);
    CongMod(Pow(m, e), p * q);
    CongPow(c, Pow(m, e), d, p * q);
    PowMul(m, e, d);
    InvertsModuloPrime(p, e, d, m);
    InvertsModuloPrime(q, e, d, m);
    ResiduesDetermine(p, q, Pow(m, e * d), m);
    DivModUnique(m, p * q, 0, m);
  }
}
