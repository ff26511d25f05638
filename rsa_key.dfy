/**
 * The deterministic parts of rsaKey.py: Euclid's gcd, the extended-Euclid
 * inverse modulo m, and the parity check and n - 1 = 2^k * q split that open
 * the Miller-Rabin test.  Python's `%` and `//` by a positive divisor agree
 * with Dafny's on every integer, so they are written directly.
 */
module RsaKey {
  import opened Bits
  import opened Outcomes

  /*** gcd (rsaKey.py:39-40) ***/

  function Gcd(a: nat, b: nat): nat
    decreases b
  {
    if b == 0 then a else Gcd(b, a % b)
  }

  /** `d` divides `x`, for a positive `d`. */
  predicate Divides(d: int, x: int)
  {
    d > 0 && x % d == 0
  }

  /** A positive common divisor of `x` and `y` divides every integer combination of them. */
  lemma DividesCombination(d: int, x: int, y: int, c: int, e: int)
    requires Divides(d, x) && Divides(d, y)
    ensures Divides(d, c * x + e * y)
  {
    var i, j := x / d, y / d;
    assert x == d * i && y == d * j;
    assert c * x + e * y == d * (c * i + e * j) by {
      assert c * x == d * (c * i);
      assert e * y == d * (e * j);
    }
    DivModUnique(c * x + e * y, d, c * i + e * j, 0);
  }

  /** The remainder step of Euclid: `a % b` is `a - (a // b) * b`. */
  lemma RemainderCombination(a: nat, b: nat)
    requires b > 0
    ensures a % b == 1 * a + (-(a / b)) * b
    ensures a == (a / b) * b + 1 * (a % b)
  {
  }

  /**
   * For naturals not both 0, gcd(a, b) is positive and divides both, and every
   * positive common divisor divides it.
   */
  lemma {:induction false} GcdIsGreatestCommonDivisor(a: nat, b: nat, d: int)
    requires a != 0 || b != 0
    ensures Divides(Gcd(a, b), a) && Divides(Gcd(a, b), b)
    ensures Divides(d, a) && Divides(d, b) ==> Divides(d, Gcd(a, b))
    decreases b
  {
    if b != 0 {
      GcdIsGreatestCommonDivisor(b, a % b, d);
      var g := Gcd(a, b);
      RemainderCombination(a, b);
      DividesCombination(g, b, a % b, a / b, 1);
      if Divides(d, a) && Divides(d, b) {
        DividesCombination(d, a, b, 1, -(a / b));
      }
    }
  }

  /*** modInverse (rsaKey.py:45-56) ***/

  /** The four variables of the extended-Euclid loop. */
  datatype State = State(m: nat, a: nat, r1: int, r2: int)

  /**
   * `modInvHelper`: one step of extended Euclid.  `m % a` raises
   * ZeroDivisionError when `a` is 0.
   */
  function ModInvHelper(s: State): (r: Result<State>)
    ensures r.Err? <==> s.a == 0
    ensures r.Err? ==> r.error == DivisionByZero
    ensures r.Ok? ==> r.value.m == s.a && r.value.a < s.a && r.value.r1 == s.r2
    ensures r.Ok? ==> Gcd(r.value.m, r.value.a) == Gcd(s.m, s.a)
  {
    if s.a == 0 then Err(DivisionByZero)
    else Ok(State(s.a, s.m % s.a, s.r2, -(s.m / s.a) * s.r2 + s.r1))
  }

  /** The Bezout-style invariant: `x * r1 ≡ m` and `x * r2 ≡ a` modulo `modulus`. */
  predicate Congruent(s: State, x: int, modulus: int)
  {
    Divides(modulus, x * s.r1 - s.m) && Divides(modulus, x * s.r2 - s.a)
  }

  /** modInvHelper keeps the invariant of the loop in modInverse. */
  lemma ModInvHelperKeepsCongruence(s: State, x: int, modulus: int)
    requires s.a != 0 && Congruent(s, x, modulus)
    ensures ModInvHelper(s).Ok? && Congruent(ModInvHelper(s).value, x, modulus)
  {
    var q, rem := s.m / s.a, s.m % s.a;
    DivMod(s.m, s.a);
    var t := ModInvHelper(s).value;
    assert t == State(s.a, rem, s.r2, -q * s.r2 + s.r1);
    StepKeepsCongruence(x, modulus, s.m, s.a, s.r1, s.r2, q, rem);
  }

  /** The new Bezout residue is a combination of the two old ones, so the modulus divides it. */
  lemma StepKeepsCongruence(x: int, modulus: int, m: int, a: int, r1: int, r2: int, q: int, rem: int)
    requires m == q * a + rem
    requires Divides(modulus, x * r1 - m) && Divides(modulus, x * r2 - a)
    ensures Divides(modulus, x * (-q * r2 + r1) - rem)
  {
    var d1, d2 := x * r1 - m, x * r2 - a;
    DividesCombination(modulus, d1, d2, 1, -q);
    StepCombination(x, q, m, a, rem, r1, r2, d1, d2);
  }

  lemma StepCombination(x: int, q: int, m: int, a: int, rem: int, r1: int, r2: int, d1: int, d2: int)
    requires m == q * a + rem && d1 == x * r1 - m && d2 == x * r2 - a
    ensures x * (-q * r2 + r1) - rem == 1 * d1 + (-q) * d2
  {
  }

  /** Reducing the factor `r` modulo `m` does not change `x * r` modulo `m`. */
  lemma ModOfProduct(x: int, r: int, m: int)
    requires m > 0
    ensures (x * (r % m)) % m == (x * r) % m
  {
    var q := r / m;
    assert x * r == m * (x * q) + x * (r % m) by {
      assert r == m * q + r % m;
    }
    var p := x * (r % m);
    DivModUnique(x * r, m, x * q + p / m, p % m);
  }

  /** Congruence to 1 modulo m > 1 leaves remainder 1. */
  lemma CongruentToOne(y: int, m: int)
    requires m > 1 && Divides(m, y - 1)
    ensures y % m == 1
  {
    var q := (y - 1) / m;
    DivModUnique(y, m, q, 1);
  }

  /** An inverse of `a` modulo `m` exists only when gcd(m, a) == 1. */
  lemma InverseMeansCoprime(m: nat, a: nat, r: int)
    requires m > 0 && (a * r) % m == 1
    ensures Gcd(m, a) == 1
  {
    var g := Gcd(m, a);
    GcdIsGreatestCommonDivisor(m, a, 1);
    var q := (a * r) / m;
    assert 1 == r * a + (-q) * m;
    DividesCombination(g, a, m, r, -q);
    assert g <= 1;
  }

  /**
   * `modInverse(m, a)` for naturals.  A modulus of 0 raises ZeroDivisionError at
   * the loop test; when the remainders reach 0 before the test succeeds,
   * modInvHelper raises it.  On success the result is the inverse of `a`
   * modulo `m`; for m > 1 and a >= 1 it succeeds exactly when gcd(m, a) == 1.
   */
  method ModInverse(m: nat, a: nat) returns (r: Result<int>)
    ensures r.Err? ==> r.error == DivisionByZero
    ensures m == 0 ==> r.Err?
    ensures r.Ok? ==> 0 <= r.value < m && (a * r.value) % m == 1
    ensures m > 1 && a >= 1 ==> (r.Ok? <==> Gcd(m, a) == 1)
  {
    if m == 0 {
      return Err(DivisionByZero);
    }
    var s := State(m, a, 0, 1);
    assert Congruent(s, a, m) by {
      DivModUnique(a * 0 - m, m, -1, 0);
      DivModUnique(a * 1 - a, m, 0, 0);
    }
    while (a * s.r2) % m != 1
      invariant s.m >= 0 && Congruent(s, a, m)
      invariant Gcd(s.m, s.a) == Gcd(m, a)
      invariant m > 1 && a >= 1 && Gcd(m, a) == 1 ==> s.a != 0
      decreases s.a
    {
      var next := ModInvHelper(s);
      if next.Err? {
        assert m > 1 && a >= 1 ==> Gcd(m, a) != 1;
        return Err(next.error);
      }
      ModInvHelperKeepsCongruence(s, a, m);
      if m > 1 && a >= 1 && Gcd(m, a) == 1 && next.value.a == 0 {
        LoopReachesOne(s, a, m);
        assert false;
      }
      s := next.value;
    }
    ModOfProduct(a, s.r2, m);
    r := Ok(s.r2 % m);
    InverseMeansCoprime(m, a, s.r2 % m);
  }

  /**
   * Inside the loop the remainder is not 1, so with gcd 1 the next remainder
   * is not 0: the loop test succeeds before modInvHelper could divide by 0.
   */
  lemma LoopReachesOne(s: State, x: int, m: nat)
    requires m > 1 && s.a != 0 && Congruent(s, x, m) && (x * s.r2) % m != 1
    requires Gcd(s.m, s.a) == 1
    ensures s.m % s.a != 0
  {
    if s.m % s.a == 0 {
      assert Gcd(s.m, s.a) == s.a;
      CongruentToOne(x * s.r2, m);
      assert false;
    }
  }

  /*** The deterministic prefix of MillerRabin (rsaKey.py:9-19) ***/

  /** Where the prefix of MillerRabin leads. */
  datatype Prefix =
    | Composite           // `return False` at rsaKey.py:12: n is even
    | Diverges            // q starts at 0, which stays even: the loop never ends
    | Split(k: nat, q: int)

  /**
   * The parity check, then the loop at rsaKey.py:15-19 that finds k >= 1 and
   * odd q with n - 1 == 2^k * q.  For n == 1 the loop never ends, which the
   * model reports as Diverges instead of running it.
   */
  method MillerRabinPrefix(n: int) returns (p: Prefix)
    ensures p == Composite <==> n % 2 == 0
    ensures p == Diverges <==> n == 1
    ensures p.Split? ==> p.k >= 1 && p.q % 2 == 1 && n - 1 == Pow2(p.k) * p.q
  {
    if n % 2 == 0 {
      return Composite;
    }
    var k := 1;
    var q := (n - 1) / 2;
    if q == 0 {
      return Diverges;
    }
    while q % 2 == 0
      invariant k >= 1 && q != 0 && n - 1 == Pow2(k) * q
      decreases if q > 0 then q else -q
    {
      var h := q / 2;
      assert q == 2 * h;
      HalveStep(Pow2(k), q, h);
      k := k + 1;
      q := h;
    }
    p := Split(k, q);
  }

  lemma HalveStep(p: int, q: int, h: int)
    requires q == 2 * h
    ensures (2 * p) * h == p * q
  {
  }
}
