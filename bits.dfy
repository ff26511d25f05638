/**
 * Python's unbounded non-negative integers under the bitwise operators the
 * ciphers use.  For naturals, `x >> n` is `x / Pow2(n)`, `x << n` is
 * `x * Pow2(n)` and `x & (2^n - 1)` is `x % Pow2(n)`; `^` and `|` are the
 * recursive functions Xor and Or below.
 */
module Bits {

  function Pow2(n: nat): (p: nat)
    ensures p >= 1
  {
    if n == 0 then 1 else 2 * Pow2(n - 1)
  }

  /** Bit `i` of `x`, counted from the least-significant bit: `(x >> i) & 1`. */
  function Bit(x: nat, i: nat): (b: nat)
    ensures b <= 1
  {
    (x / Pow2(i)) % 2
  }

  /** `a ^ b` on naturals. */
  function Xor(a: nat, b: nat): nat
    decreases a + b
  {
    if a == 0 then b
    else if b == 0 then a
    else 2 * Xor(a / 2, b / 2) + (a % 2 + b % 2) % 2
  }

  /** `a | b` on naturals. */
  function Or(a: nat, b: nat): nat
    decreases a + b
  {
    if a == 0 then b
    else if b == 0 then a
    else 2 * Or(a / 2, b / 2) + (if a % 2 == 1 || b % 2 == 1 then 1 else 0)
  }

  lemma Pow2Add(a: nat, b: nat)
    ensures Pow2(a + b) == Pow2(a) * Pow2(b)
  {
    if a > 0 {
      Pow2Add(a - 1, b);
    }
  }

  /** Division is determined by quotient and remainder. */
  lemma DivModUnique(x: int, d: int, q: int, r: int)
    requires d > 0 && 0 <= r < d && x == d * q + r
    ensures x / d == q && x % d == r
  {
    var q', r' := x / d, x % d;
    assert x == d * q' + r';
    if q' < q {
      MulStep(d, q', q);
      assert false;
    } else if q < q' {
      MulStep(d, q, q');
      assert false;
    }
  }

  lemma MulStep(d: int, a: int, b: int)
    requires d > 0 && a < b
    ensures d * a + d <= d * b
  {
    assert d * b == d * a + d * (b - a);
    assert d * (b - a) == d + d * (b - a - 1);
  }

  lemma DivMod(x: nat, d: nat)
    requires d > 0
    ensures x == x / d * d + x % d && x % d < d
  {
  }

  lemma DivDiv(x: nat, a: nat, b: nat)
    requires a > 0 && b > 0
    ensures x / (a * b) == (x / a) / b
  {
    var q1, r1 := x / a, x % a;
    var q2, r2 := q1 / b, q1 % b;
    assert x == a * q1 + r1;
    assert q1 == b * q2 + r2;
    assert x == (a * b) * q2 + (a * r2 + r1) by {
      calc {
        x;
        a * (b * q2 + r2) + r1;
        (a * b) * q2 + (a * r2 + r1);
      }
    }
    assert a * r2 + r1 < a * b by {
      MulStep(a, r2, b);
    }
    DivModUnique(x, a * b, q2, a * r2 + r1);
  }

  lemma BitZero(x: nat)
    ensures Bit(x, 0) == x % 2
  {
  }

  lemma BitSucc(x: nat, i: nat)
    ensures Bit(x, i + 1) == Bit(x / 2, i)
  {
    DivDiv(x, 2, Pow2(i));
  }

  /** Two naturals with the same bits are equal. */
  lemma {:induction false} BitsDetermine(x: nat, y: nat)
    requires forall i: nat :: Bit(x, i) == Bit(y, i)
    ensures x == y
    decreases x + y
  {
    BitZero(x);
    BitZero(y);
    if x != 0 || y != 0 {
      forall i: nat ensures Bit(x / 2, i) == Bit(y / 2, i) {
        BitSucc(x, i);
        BitSucc(y, i);
      }
      BitsDetermine(x / 2, y / 2);
    }
  }

  lemma {:induction false} BitAbove(x: nat, n: nat, i: nat)
    requires x < Pow2(n) && n <= i
    ensures Bit(x, i) == 0
  {
    if n == 0 {
      assert x == 0;
    } else {
      BitSucc(x, i - 1);
      BitAbove(x / 2, n - 1, i - 1);
    }
  }

  /** Below a bound, the bits under the bound determine the value. */
  lemma BitsDetermineBelow(x: nat, y: nat, n: nat)
    requires x < Pow2(n) && y < Pow2(n)
    requires forall i: nat :: i < n ==> Bit(x, i) == Bit(y, i)
    ensures x == y
  {
    forall i: nat ensures Bit(x, i) == Bit(y, i) {
      if i >= n {
        BitAbove(x, n, i);
        BitAbove(y, n, i);
      }
    }
    BitsDetermine(x, y);
  }

  lemma {:induction false} XorBit(a: nat, b: nat, i: nat)
    ensures Bit(Xor(a, b), i) == (Bit(a, i) + Bit(b, i)) % 2
    decreases i
  {
    var x := Xor(a, b);
    XorStep(a, b);
    if i == 0 {
      BitZero(x); BitZero(a); BitZero(b);
    } else {
      var ha, hb := a / 2, b / 2;
      assert x / 2 == Xor(ha, hb);
      BitSucc(x, i - 1); BitSucc(a, i - 1); BitSucc(b, i - 1);
      XorBit(ha, hb, i - 1);
    }
  }

  lemma XorSelfInverse(a: nat, b: nat)
    ensures Xor(Xor(a, b), b) == a
  {
    forall i: nat ensures Bit(Xor(Xor(a, b), b), i) == Bit(a, i) {
      XorBit(Xor(a, b), b, i);
      XorBit(a, b, i);
      ParityCancel(Bit(a, i), Bit(b, i), Bit(Xor(a, b), i), Bit(Xor(Xor(a, b), b), i));
    }
    BitsDetermine(Xor(Xor(a, b), b), a);
  }

  lemma XorComm(a: nat, b: nat)
    ensures Xor(a, b) == Xor(b, a)
  {
    forall i: nat ensures Bit(Xor(a, b), i) == Bit(Xor(b, a), i) {
      XorBit(a, b, i);
      XorBit(b, a, i);
    }
    BitsDetermine(Xor(a, b), Xor(b, a));
  }

  lemma XorAssoc(a: nat, b: nat, c: nat)
    ensures Xor(Xor(a, b), c) == Xor(a, Xor(b, c))
  {
    forall i: nat ensures Bit(Xor(Xor(a, b), c), i) == Bit(Xor(a, Xor(b, c)), i) {
      XorAssocBit(a, b, c, i);
    }
    BitsDetermine(Xor(Xor(a, b), c), Xor(a, Xor(b, c)));
  }

  lemma XorAssocBit(a: nat, b: nat, c: nat, i: nat)
    ensures Bit(Xor(Xor(a, b), c), i) == Bit(Xor(a, Xor(b, c)), i)
  {
    var ab, bc := Xor(a, b), Xor(b, c);
    XorBit(ab, c, i);
    XorBit(a, b, i);
    XorBit(a, bc, i);
    XorBit(b, c, i);
    ParityAssoc(Bit(a, i), Bit(b, i), Bit(c, i), Bit(ab, i), Bit(bc, i), Bit(Xor(ab, c), i), Bit(Xor(a, bc), i));
  }

  lemma ParityCancel(x: nat, y: nat, xy: nat, back: nat)
    requires x <= 1 && y <= 1
    requires xy == (x + y) % 2 && back == (xy + y) % 2
    ensures back == x
  {
  }

  lemma ParityAssoc(x: nat, y: nat, z: nat, xy: nat, yz: nat, left: nat, right: nat)
    requires x <= 1 && y <= 1 && z <= 1
    requires xy == (x + y) % 2 && yz == (y + z) % 2
    requires left == (xy + z) % 2 && right == (x + yz) % 2
    ensures left == right
  {
  }

  lemma {:induction false} XorBelow(a: nat, b: nat, n: nat)
    requires a < Pow2(n) && b < Pow2(n)
    ensures Xor(a, b) < Pow2(n)
  {
    if n > 0 && a != 0 && b != 0 {
      XorBelow(a / 2, b / 2, n - 1);
    }
  }

  lemma {:induction false} OrShifted(a: nat, b: nat, n: nat)
    requires b < Pow2(n)
    ensures Or(a * Pow2(n), b) == a * Pow2(n) + b
  {
    if n > 0 && a != 0 && b != 0 {
      var h := a * Pow2(n - 1);
      assert a * Pow2(n) == 2 * h;
      OrShifted(a, b / 2, n - 1);
      assert Or(2 * h, b) == 2 * Or(h, b / 2) + b % 2;
    }
  }

  /** The powers the byte-sized code needs. */
  lemma Pow2Small()
    ensures Pow2(1) == 2 && Pow2(4) == 16 && Pow2(8) == 256
  {
  }

  lemma Pow2Values()
    ensures Pow2(1) == 2 && Pow2(4) == 16 && Pow2(8) == 256
    ensures Pow2(28) == 0x1000_0000 && Pow2(32) == 0x1_0000_0000
    ensures Pow2(64) == 0x1_0000_0000_0000_0000
  {
    Pow2Small();
    Pow2Add(8, 8);
    Pow2Add(16, 8);
    Pow2Add(24, 4);
    Pow2Add(24, 8);
    Pow2Add(32, 32);
  }

  lemma {:induction false} Pow2Monotone(a: nat, b: nat)
    requires a <= b
    ensures Pow2(a) <= Pow2(b)
  {
    if a < b {
      Pow2Monotone(a, b - 1);
    }
  }

  /** Bit `b` of `x >> m` is bit `b + m` of `x`. */
  lemma BitOfDiv(x: nat, m: nat, b: nat)
    ensures Bit(High(x, m), b) == Bit(x, b + m)
  {
    DivDiv(x, Pow2(m), Pow2(b));
    Pow2Add(m, b);
    assert Pow2(m) * Pow2(b) == Pow2(b + m);
  }

  /** The bits of `a << m | c`, for `c` below 2^m. */
  lemma {:induction false} BitOfShiftedSum(a: nat, c: nat, m: nat, b: nat)
    requires c < Pow2(m)
    ensures Bit(a * Pow2(m) + c, b) == if b < m then Bit(c, b) else Bit(a, b - m)
  {
    var x := a * Pow2(m) + c;
    if b < m {
      // x and c agree modulo 2^(b+1)
      var p, q := Pow2(b + 1), Pow2(m - b - 1);
      Pow2Add(b + 1, m - b - 1);
      assert b + 1 + (m - b - 1) == m;
      MulRegroup(a, p, q);
      ModLowBits(x, c, a * q, b);
    } else {
      DivModUnique(x, Pow2(m), a, c);
      BitOfDiv(x, m, b - m);
    }
  }

  lemma MulRegroup(a: int, p: int, q: int)
    ensures a * (p * q) == p * (a * q)
  {
  }

  /** Adding a multiple of 2^(b+1) leaves bit `b` unchanged. */
  lemma ModLowBits(x: nat, c: nat, k: nat, b: nat)
    requires x == Pow2(b + 1) * k + c
    ensures Bit(x, b) == Bit(c, b)
  {
    var d := Pow2(b);
    assert Pow2(b + 1) == 2 * d;
    var qc, rc := c / d, c % d;
    assert c == d * qc + rc;
    assert x == d * (2 * k + qc) + rc by {
      assert Pow2(b + 1) * k == d * (2 * k);
    }
    DivModUnique(x, d, 2 * k + qc, rc);
    assert x / d == 2 * k + qc;
    assert (2 * k + qc) % 2 == qc % 2;
  }

  /** Bit `b` of `x & (2^m - 1)` is bit `b` of `x` below `m` and 0 above. */
  lemma BitOfMod(x: nat, m: nat, b: nat)
    ensures Bit(x % Pow2(m), b) == if b < m then Bit(x, b) else 0
  {
    var q, r := High(x, m), Low(x, m);
    HighLow(x, m);
    BitOfShiftedSum(q, r, m, b);
    if b >= m {
      BitAbove(r, m, b);
    }
  }

  /** `x & (2^w - 1)`: the low `w` bits. */
  function Low(x: nat, w: nat): (r: nat)
    ensures r < Pow2(w)
  {
    x % Pow2(w)
  }

  /** `x >> w`: what is left above the low `w` bits. */
  function High(x: nat, w: nat): nat
  {
    DivNonNegative(x, Pow2(w));
    x / Pow2(w)
  }

  lemma DivNonNegative(x: nat, d: nat)
    requires d > 0
    ensures x / d >= 0
  {
    var q := x / d;
    DivMod(x, d);
    if q < 0 {
      MulStep(d, q, 0);
    }
  }

  /** `x << n`. */
  function Shl(x: nat, n: nat): nat
  {
    x * Pow2(n)
  }

  /** `high << w | low`. */
  function Join(high: nat, low: nat, w: nat): nat
  {
    Or(Shl(high, w), low)
  }

  /** Joining a value below 2^w under `high` can be split again into the two parts. */
  lemma JoinSplits(high: nat, low: nat, w: nat)
    requires low < Pow2(w)
    ensures Join(high, low, w) == high * Pow2(w) + low
    ensures High(Join(high, low, w), w) == high && Low(Join(high, low, w), w) == low
  {
    OrShifted(high, low, w);
    DivModUnique(high * Pow2(w) + low, Pow2(w), high, low);
  }

  /** Two halves of w and n bits join into a value of w + n bits. */
  lemma JoinBelow(high: nat, low: nat, w: nat, n: nat)
    requires high < Pow2(n) && low < Pow2(w)
    ensures Join(high, low, w) < Pow2(w + n)
  {
    JoinSplits(high, low, w);
    Pow2Add(n, w);
    BelowProduct(high, low, Pow2(w), Pow2(n));
  }

  lemma BelowProduct(high: nat, low: nat, d: nat, e: nat)
    requires high < e && low < d
    ensures high * d + low < e * d
  {
    MulStep(d, high, e);
  }

  /** A value of w + n bits splits into a high part of n bits and a low part of w bits. */
  lemma SplitJoins(x: nat, w: nat, n: nat)
    requires x < Pow2(w + n)
    ensures High(x, w) < Pow2(n)
    ensures Join(High(x, w), Low(x, w), w) == x
  {
    HighBelow(x, w, n);
    HighLow(x, w);
    JoinSplits(High(x, w), Low(x, w), w);
  }

  /** The bits of an (w + n)-bit value above the low `w` fit in `n` bits. */
  lemma HighBelow(x: nat, w: nat, n: nat)
    requires x < Pow2(w + n)
    ensures High(x, w) < Pow2(n)
  {
    Pow2Add(n, w);
    QuotientBelow(x, Pow2(w), Pow2(n));
  }

  lemma HighLow(x: nat, w: nat)
    ensures x == High(x, w) * Pow2(w) + Low(x, w)
  {
    DivMod(x, Pow2(w));
  }

  lemma QuotientBelow(x: nat, d: nat, e: nat)
    requires d > 0 && x < e * d
    ensures x / d < e
  {
    var q := x / d;
    DivMod(x, d);
    if q >= e {
      MulStep(d, e - 1, q);
      assert false;
    }
  }

  /** Shifting `hi * 2^m + lo` left by `s` shifts both parts. */
  lemma ShlOfSum(hi: nat, lo: nat, m: nat, s: nat)
    ensures Shl(hi * Pow2(m) + lo, s) == Shl(hi, m + s) + Shl(lo, s)
  {
    Pow2Add(m, s);
    MulDistributes(hi, lo, Pow2(m), Pow2(s));
  }

  lemma MulDistributes(hi: int, lo: int, a: int, b: int)
    ensures (hi * a + lo) * b == hi * (a * b) + lo * b
  {
  }

  lemma XorCancel(a: nat, b: nat)
    ensures Xor(a, Xor(a, b)) == b
  {
    XorComm(a, Xor(a, b));
    XorComm(a, b);
    XorSelfInverse(b, a);
  }

  /** One step of the definition of Xor, valid also when an argument is 0. */
  lemma XorStep(a: nat, b: nat)
    ensures Xor(a, b) / 2 == Xor(a / 2, b / 2) && Xor(a, b) % 2 == (a % 2 + b % 2) % 2
  {
    var q, r := Xor(a / 2, b / 2), (a % 2 + b % 2) % 2;
    if a == 0 {
      assert q == b / 2 && r == b % 2;
    } else if b == 0 {
      assert q == a / 2 && r == a % 2;
    }
    assert Xor(a, b) == 2 * q + r;
    DivModUnique(Xor(a, b), 2, q, r);
  }

  lemma XorSelf(a: nat)
    ensures Xor(a, a) == 0
  {
    XorSelfInverse(0, a);
  }

  /** XOR of four terms can be regrouped pairwise. */
  lemma XorSwapMiddle(a: nat, b: nat, c: nat, d: nat)
    ensures Xor(Xor(a, b), Xor(c, d)) == Xor(Xor(a, c), Xor(b, d))
  {
    XorAssoc(a, b, Xor(c, d));
    XorAssoc(b, c, d);
    XorComm(b, c);
    XorAssoc(c, b, d);
    XorAssoc(a, c, Xor(b, d));
  }
}
