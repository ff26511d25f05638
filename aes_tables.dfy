/**
 * The AES tables of app.py (app.py:110-162): the bit matrix and constant of
 * the affine map that aes.py's SubBytes applies and of its inverse, the
 * ShiftRows index tables and the MixColumns matrices.  Bit vectors are read
 * most significant bit first, as `format(x, '08b')` lists them.
 */
module AesTables {
  import opened Permutations

  /** Affine matrix of SubBytes, one row per output bit (app.py:114-122). */
  const S: seq<nat> :=
    [1, 0, 0, 0, 1, 1, 1, 1] +
    [1, 1, 0, 0, 0, 1, 1, 1] +
    [1, 1, 1, 0, 0, 0, 1, 1] +
    [1, 1, 1, 1, 0, 0, 0, 1] +
    [1, 1, 1, 1, 1, 0, 0, 0] +
    [0, 1, 1, 1, 1, 1, 0, 0] +
    [0, 0, 1, 1, 1, 1, 1, 0] +
    [0, 0, 0, 1, 1, 1, 1, 1]

  /** Affine constant of SubBytes (app.py:125). */
  const SC: seq<nat> := [1, 1, 0, 0, 0, 1, 1, 0]

  /** Inverse affine matrix (app.py:128-135). */
  const OS: seq<nat> :=
    [0, 0, 1, 0, 0, 1, 0, 1] +
    [1, 0, 0, 1, 0, 0, 1, 0] +
    [0, 1, 0, 0, 1, 0, 0, 1] +
    [1, 0, 1, 0, 0, 1, 0, 0] +
    [0, 1, 0, 1, 0, 0, 1, 0] +
    [0, 0, 1, 0, 1, 0, 0, 1] +
    [1, 0, 0, 1, 0, 1, 0, 0] +
    [0, 1, 0, 0, 1, 0, 1, 0]

  /** Inverse affine constant (app.py:138). */
  const OSC: seq<nat> := [1, 0, 1, 0, 0, 0, 0, 0]

  /** ShiftRows gather table: output i is input SR[i] (app.py:141-144). */
  const SR: seq<nat> :=
    [ 0,  5, 10, 15] +
    [ 4,  9, 14,  3] +
    [ 8, 13,  2,  7] +
    [12,  1,  6, 11]

  /** Inverse ShiftRows gather table (app.py:147-150). */
  const OSR: seq<nat> :=
    [ 0, 13, 10,  7] +
    [ 4,  1, 14, 11] +
    [ 8,  5,  2, 15] +
    [12,  9,  6,  3]

  /** MixColumns matrix (app.py:153-156). */
  const MC: seq<nat> :=
    [2, 3, 1, 1] +
    [1, 2, 3, 1] +
    [1, 1, 2, 3] +
    [3, 1, 1, 2]

  /** Inverse MixColumns matrix (app.py:159-162). */
  const OMC: seq<nat> :=
    [14, 11, 13,  9] +
    [ 9, 14, 11, 13] +
    [13,  9, 14, 11] +
    [11, 13,  9, 14]

  /** Row `j` of `m` AND the bits `b`, XOR-folded: the parity of the selected bits. */
  function Dot(m: seq<nat>, j: nat, b: seq<bool>): bool
    requires |m| == 64 && j < 8 && |b| == 8
  {
    ((((((((m[8 * j] == 1 && b[0]) != (m[8 * j + 1] == 1 && b[1]))
      != (m[8 * j + 2] == 1 && b[2])) != (m[8 * j + 3] == 1 && b[3]))
      != (m[8 * j + 4] == 1 && b[4])) != (m[8 * j + 5] == 1 && b[5]))
      != (m[8 * j + 6] == 1 && b[6])) != (m[8 * j + 7] == 1 && b[7]))
  }

  /** Output bit `j` of the affine map: constant bit `j` XOR the parity of row `j`. */
  function AffineBit(m: seq<nat>, c: seq<nat>, j: nat, b: seq<bool>): bool
    requires |m| == 64 && |c| == 8 && j < 8 && |b| == 8
  {
    (c[j] == 1) != Dot(m, j, b)
  }

  /** The affine map over GF(2): `b` goes to `m b + c`, bits most significant first. */
  function Affine(m: seq<nat>, c: seq<nat>, b: seq<bool>): seq<bool>
    requires |m| == 64 && |c| == 8 && |b| == 8
  {
    [AffineBit(m, c, 0, b), AffineBit(m, c, 1, b), AffineBit(m, c, 2, b), AffineBit(m, c, 3, b),
     AffineBit(m, c, 4, b), AffineBit(m, c, 5, b), AffineBit(m, c, 6, b), AffineBit(m, c, 7, b)]
  }

  /** The SubBytes map written out bit by bit. */
  lemma ForwardAffineBits(b: seq<bool>)
    requires |b| == 8
    ensures |S| == 64 && |SC| == 8
    ensures Affine(S, SC, b) == [
      ((((true != b[0]) != b[4]) != b[5]) != b[6]) != b[7],
      ((((true != b[0]) != b[1]) != b[5]) != b[6]) != b[7],
      ((((false != b[0]) != b[1]) != b[2]) != b[6]) != b[7],
      ((((false != b[0]) != b[1]) != b[2]) != b[3]) != b[7],
      ((((false != b[0]) != b[1]) != b[2]) != b[3]) != b[4],
      ((((true != b[1]) != b[2]) != b[3]) != b[4]) != b[5],
      ((((true != b[2]) != b[3]) != b[4]) != b[5]) != b[6],
      ((((false != b[3]) != b[4]) != b[5]) != b[6]) != b[7]
    ]
  {
    ForwardBit0(b);
    ForwardBit1(b);
    ForwardBit2(b);
    ForwardBit3(b);
    ForwardBit4(b);
    ForwardBit5(b);
    ForwardBit6(b);
    ForwardBit7(b);
  }

  lemma ForwardBit0(b: seq<bool>)
    requires |b| == 8
    ensures |S| == 64 && |SC| == 8
    ensures AffineBit(S, SC, 0, b) == (((((true != b[0]) != b[4]) != b[5]) != b[6]) != b[7])
  {
  }

  lemma ForwardBit1(b: seq<bool>)
    requires |b| == 8
    ensures |S| == 64 && |SC| == 8
    ensures AffineBit(S, SC, 1, b) == (((((true != b[0]) != b[1]) != b[5]) != b[6]) != b[7])
  {
  }

  lemma ForwardBit2(b: seq<bool>)
    requires |b| == 8
    ensures |S| == 64 && |SC| == 8
    ensures AffineBit(S, SC, 2, b) == (((((false != b[0]) != b[1]) != b[2]) != b[6]) != b[7])
  {
  }

  lemma ForwardBit3(b: seq<bool>)
    requires |b| == 8
    ensures |S| == 64 && |SC| == 8
    ensures AffineBit(S, SC, 3, b) == (((((false != b[0]) != b[1]) != b[2]) != b[3]) != b[7])
  {
  }

  lemma ForwardBit4(b: seq<bool>)
    requires |b| == 8
    ensures |S| == 64 && |SC| == 8
    ensures AffineBit(S, SC, 4, b) == (((((false != b[0]) != b[1]) != b[2]) != b[3]) != b[4])
  {
  }

  lemma ForwardBit5(b: seq<bool>)
    requires |b| == 8
    ensures |S| == 64 && |SC| == 8
    ensures AffineBit(S, SC, 5, b) == (((((true != b[1]) != b[2]) != b[3]) != b[4]) != b[5])
  {
  }

  lemma ForwardBit6(b: seq<bool>)
    requires |b| == 8
    ensures |S| == 64 && |SC| == 8
    ensures AffineBit(S, SC, 6, b) == (((((true != b[2]) != b[3]) != b[4]) != b[5]) != b[6])
  {
  }

  lemma ForwardBit7(b: seq<bool>)
    requires |b| == 8
    ensures |S| == 64 && |SC| == 8
    ensures AffineBit(S, SC, 7, b) == (((((false != b[3]) != b[4]) != b[5]) != b[6]) != b[7])
  {
  }

  /** The inverse map written out bit by bit. */
  lemma InverseAffineBits(y: seq<bool>)
    requires |y| == 8
    ensures |OS| == 64 && |OSC| == 8
    ensures Affine(OS, OSC, y) == [
      ((true != y[2]) != y[5]) != y[7],
      ((false != y[0]) != y[3]) != y[6],
      ((true != y[1]) != y[4]) != y[7],
      ((false != y[0]) != y[2]) != y[5],
      ((false != y[1]) != y[3]) != y[6],
      ((false != y[2]) != y[4]) != y[7],
      ((false != y[0]) != y[3]) != y[5],
      ((false != y[1]) != y[4]) != y[6]
    ]
  {
    InverseBit0(y);
    InverseBit1(y);
    InverseBit2(y);
    InverseBit3(y);
    InverseBit4(y);
    InverseBit5(y);
    InverseBit6(y);
    InverseBit7(y);
  }

  lemma InverseBit0(y: seq<bool>)
    requires |y| == 8
    ensures |OS| == 64 && |OSC| == 8
    ensures AffineBit(OS, OSC, 0, y) == (((true != y[2]) != y[5]) != y[7])
  {
  }

  lemma InverseBit1(y: seq<bool>)
    requires |y| == 8
    ensures |OS| == 64 && |OSC| == 8
    ensures AffineBit(OS, OSC, 1, y) == (((false != y[0]) != y[3]) != y[6])
  {
  }

  lemma InverseBit2(y: seq<bool>)
    requires |y| == 8
    ensures |OS| == 64 && |OSC| == 8
    ensures AffineBit(OS, OSC, 2, y) == (((true != y[1]) != y[4]) != y[7])
  {
  }

  lemma InverseBit3(y: seq<bool>)
    requires |y| == 8
    ensures |OS| == 64 && |OSC| == 8
    ensures AffineBit(OS, OSC, 3, y) == (((false != y[0]) != y[2]) != y[5])
  {
  }

  lemma InverseBit4(y: seq<bool>)
    requires |y| == 8
    ensures |OS| == 64 && |OSC| == 8
    ensures AffineBit(OS, OSC, 4, y) == (((false != y[1]) != y[3]) != y[6])
  {
  }

  lemma InverseBit5(y: seq<bool>)
    requires |y| == 8
    ensures |OS| == 64 && |OSC| == 8
    ensures AffineBit(OS, OSC, 5, y) == (((false != y[2]) != y[4]) != y[7])
  {
  }

  lemma InverseBit6(y: seq<bool>)
    requires |y| == 8
    ensures |OS| == 64 && |OSC| == 8
    ensures AffineBit(OS, OSC, 6, y) == (((false != y[0]) != y[3]) != y[5])
  {
  }

  lemma InverseBit7(y: seq<bool>)
    requires |y| == 8
    ensures |OS| == 64 && |OSC| == 8
    ensures AffineBit(OS, OSC, 7, y) == (((false != y[1]) != y[4]) != y[6])
  {
  }

  /**
   * The map of (OS, OSC) undoes the map of (S, SC) and the other way round:
   * the two affine maps are inverse bijections of the 256 bit vectors.
   */
  lemma AffineInverse(b: seq<bool>)
    requires |b| == 8
    ensures |S| == 64 && |SC| == 8 && |OS| == 64 && |OSC| == 8
    ensures Affine(OS, OSC, Affine(S, SC, b)) == b
    ensures Affine(S, SC, Affine(OS, OSC, b)) == b
  {
    AffineUndoesForward(b);
    AffineUndoesInverse(b);
  }

  lemma AffineUndoesForward(b: seq<bool>)
    requires |b| == 8
    ensures |S| == 64 && |SC| == 8 && |OS| == 64 && |OSC| == 8
    ensures Affine(OS, OSC, Affine(S, SC, b)) == b
  {
    var y := Affine(S, SC, b);
    ForwardAffineBits(b);
    InverseAffineBits(y);
    ForwardThenInverse(b, y, Affine(OS, OSC, y));
  }

  lemma AffineUndoesInverse(y: seq<bool>)
    requires |y| == 8
    ensures |S| == 64 && |SC| == 8 && |OS| == 64 && |OSC| == 8
    ensures Affine(S, SC, Affine(OS, OSC, y)) == y
  {
    var b := Affine(OS, OSC, y);
    InverseAffineBits(y);
    ForwardAffineBits(b);
    InverseThenForward(y, b, Affine(S, SC, b));
  }

  /** The two bit formulas compose to the identity: forward first. */
  lemma ForwardThenInverse(b: seq<bool>, y: seq<bool>, z: seq<bool>)
    requires |b| == 8
    requires y == [
      ((((true != b[0]) != b[4]) != b[5]) != b[6]) != b[7],
      ((((true != b[0]) != b[1]) != b[5]) != b[6]) != b[7],
      ((((false != b[0]) != b[1]) != b[2]) != b[6]) != b[7],
      ((((false != b[0]) != b[1]) != b[2]) != b[3]) != b[7],
      ((((false != b[0]) != b[1]) != b[2]) != b[3]) != b[4],
      ((((true != b[1]) != b[2]) != b[3]) != b[4]) != b[5],
      ((((true != b[2]) != b[3]) != b[4]) != b[5]) != b[6],
      ((((false != b[3]) != b[4]) != b[5]) != b[6]) != b[7]
    ]
    requires z == [
      ((true != y[2]) != y[5]) != y[7],
      ((false != y[0]) != y[3]) != y[6],
      ((true != y[1]) != y[4]) != y[7],
      ((false != y[0]) != y[2]) != y[5],
      ((false != y[1]) != y[3]) != y[6],
      ((false != y[2]) != y[4]) != y[7],
      ((false != y[0]) != y[3]) != y[5],
      ((false != y[1]) != y[4]) != y[6]
    ]
    ensures z == b
  {
  }

  /** The two bit formulas compose to the identity: inverse first. */
  lemma InverseThenForward(y: seq<bool>, b: seq<bool>, z: seq<bool>)
    requires |y| == 8
    requires b == [
      ((true != y[2]) != y[5]) != y[7],
      ((false != y[0]) != y[3]) != y[6],
      ((true != y[1]) != y[4]) != y[7],
      ((false != y[0]) != y[2]) != y[5],
      ((false != y[1]) != y[3]) != y[6],
      ((false != y[2]) != y[4]) != y[7],
      ((false != y[0]) != y[3]) != y[5],
      ((false != y[1]) != y[4]) != y[6]
    ]
    requires z == [
      ((((true != b[0]) != b[4]) != b[5]) != b[6]) != b[7],
      ((((true != b[0]) != b[1]) != b[5]) != b[6]) != b[7],
      ((((false != b[0]) != b[1]) != b[2]) != b[6]) != b[7],
      ((((false != b[0]) != b[1]) != b[2]) != b[3]) != b[7],
      ((((false != b[0]) != b[1]) != b[2]) != b[3]) != b[4],
      ((((true != b[1]) != b[2]) != b[3]) != b[4]) != b[5],
      ((((true != b[2]) != b[3]) != b[4]) != b[5]) != b[6],
      ((((false != b[3]) != b[4]) != b[5]) != b[6]) != b[7]
    ]
    ensures z == y
  {
  }

  /** Both affine matrices and constants hold only bits. */
  lemma AffineTablesAreBits()
    ensures |S| == 64 && AllBelow(S, 2) && |SC| == 8 && AllBelow(SC, 2)
    ensures |OS| == 64 && AllBelow(OS, 2) && |OSC| == 8 && AllBelow(OSC, 2)
  {
    AffineMatrixBits(S);
    AffineMatrixBits(OS);
    assert AllBelow(SC, 2) by {
      forall i | 0 <= i < 8 ensures SC[i] < 2 {
        assert i == 0 || i == 1 || i == 2 || i == 3 || i == 4 || i == 5 || i == 6 || i == 7;
      }
    }
    assert AllBelow(OSC, 2) by {
      forall i | 0 <= i < 8 ensures OSC[i] < 2 {
        assert i == 0 || i == 1 || i == 2 || i == 3 || i == 4 || i == 5 || i == 6 || i == 7;
      }
    }
  }

  lemma AffineMatrixBits(m: seq<nat>)
    requires m == S || m == OS
    ensures |m| == 64 && AllBelow(m, 2)
  {
    forall i | 0 <= i < 32 ensures m[i] < 2 {
      assert i == 0 || i == 1 || i == 2 || i == 3 || i == 4 || i == 5 || i == 6 || i == 7 || i == 8 || i == 9 || i == 10 || i == 11 || i == 12 || i == 13 || i == 14 || i == 15 || i == 16 || i == 17 || i == 18 || i == 19 || i == 20 || i == 21 || i == 22 || i == 23 || i == 24 || i == 25 || i == 26 || i == 27 || i == 28 || i == 29 || i == 30 || i == 31;
    }
    forall i | 32 <= i < 64 ensures m[i] < 2 {
      assert i == 32 || i == 33 || i == 34 || i == 35 || i == 36 || i == 37 || i == 38 || i == 39 || i == 40 || i == 41 || i == 42 || i == 43 || i == 44 || i == 45 || i == 46 || i == 47 || i == 48 || i == 49 || i == 50 || i == 51 || i == 52 || i == 53 || i == 54 || i == 55 || i == 56 || i == 57 || i == 58 || i == 59 || i == 60 || i == 61 || i == 62 || i == 63;
    }
  }

  /**
   * SR and OSR list 0..15 once each and undo each other: gathering by SR and
   * then by OSR (or the other way round) is the identity.
   */
  lemma ShiftRowTablesInverse()
    ensures IsPermutation(SR, 16) && IsPermutation(OSR, 16)
    ensures forall i :: 0 <= i < 16 ==> SR[OSR[i]] == i && OSR[SR[i]] == i
  {
    OsrInvertsSr();
    SrInvertsOsr();
    LeftInverseInjective(SR, OSR, 16);
    LeftInverseInjective(OSR, SR, 16);
  }

  lemma OsrInvertsSr()
    ensures |SR| == 16 && forall i :: 0 <= i < 16 ==> InvertedAt(SR, OSR, 16, i)
  {
    forall i | 0 <= i < 16 ensures InvertedAt(SR, OSR, 16, i) {
      assert i == 0 || i == 1 || i == 2 || i == 3 || i == 4 || i == 5 || i == 6 || i == 7 || i == 8 || i == 9 || i == 10 || i == 11 || i == 12 || i == 13 || i == 14 || i == 15;
    }
  }

  lemma SrInvertsOsr()
    ensures |OSR| == 16 && forall i :: 0 <= i < 16 ==> InvertedAt(OSR, SR, 16, i)
  {
    forall i | 0 <= i < 16 ensures InvertedAt(OSR, SR, 16, i) {
      assert i == 0 || i == 1 || i == 2 || i == 3 || i == 4 || i == 5 || i == 6 || i == 7 || i == 8 || i == 9 || i == 10 || i == 11 || i == 12 || i == 13 || i == 14 || i == 15;
    }
  }

  /** The MixColumns matrices have sixteen entries, each at most 15. */
  lemma MixMatricesShape()
    ensures |MC| == 16 && AllBelow(MC, 16) && |OMC| == 16 && AllBelow(OMC, 16)
  {
    forall i | 0 <= i < 16 ensures MC[i] < 16 && OMC[i] < 16 {
      assert i == 0 || i == 1 || i == 2 || i == 3 || i == 4 || i == 5 || i == 6 || i == 7 || i == 8 || i == 9 || i == 10 || i == 11 || i == 12 || i == 13 || i == 14 || i == 15;
    }
  }
}
