/**
 * The DES tables of app.py (app.py:1-106).  Every permutation table is the
 * standard 1-based, most-significant-bit-first table of FIPS PUB 46-3
 * rewritten as bit indices counted from the least-significant bit
 * (64 - p for IP and its inverse, 32 - p for E and P, 56 - p for PC2),
 * because `permute` reads input bit `box[i]` with `(text >> box[i]) & 1`.
 * Each table is written as the concatenation of its rows, one row per
 * source line.
 */
module DesTables {
  import opened Permutations

  /** Initial permutation (app.py:4-11). */
  const IP: seq<nat> :=
    [ 6, 14, 22, 30, 38, 46, 54, 62] +
    [ 4, 12, 20, 28, 36, 44, 52, 60] +
    [ 2, 10, 18, 26, 34, 42, 50, 58] +
    [ 0,  8, 16, 24, 32, 40, 48, 56] +
    [ 7, 15, 23, 31, 39, 47, 55, 63] +
    [ 5, 13, 21, 29, 37, 45, 53, 61] +
    [ 3, 11, 19, 27, 35, 43, 51, 59] +
    [ 1,  9, 17, 25, 33, 41, 49, 57]

  /** Inverse initial permutation (app.py:14-21). */
  const OIP: seq<nat> :=
    [24, 56, 16, 48,  8, 40,  0, 32] +
    [25, 57, 17, 49,  9, 41,  1, 33] +
    [26, 58, 18, 50, 10, 42,  2, 34] +
    [27, 59, 19, 51, 11, 43,  3, 35] +
    [28, 60, 20, 52, 12, 44,  4, 36] +
    [29, 61, 21, 53, 13, 45,  5, 37] +
    [30, 62, 22, 54, 14, 46,  6, 38] +
    [31, 63, 23, 55, 15, 47,  7, 39]

  /** Permuted choice one of the key schedule (app.py:24-31). */
  const PC1: seq<nat> :=
    [ 7, 15, 23, 31, 39, 47, 55] +
    [63,  6, 14, 22, 30, 38, 46] +
    [54, 62,  5, 13, 21, 29, 37] +
    [45, 53, 61,  4, 12, 20, 28] +
    [ 1,  9, 17, 25, 33, 41, 49] +
    [57,  2, 10, 18, 26, 34, 42] +
    [50, 58,  3, 11, 19, 27, 35] +
    [43, 51, 59, 36, 44, 52, 60]

  /** Permuted choice two of the key schedule (app.py:34-39). */
  const PC2: seq<nat> :=
    [42, 39, 45, 32, 55, 51, 53, 28] +
    [41, 50, 35, 46, 33, 37, 44, 52] +
    [30, 48, 40, 49, 29, 36, 43, 54] +
    [15,  4, 25, 19,  9,  1, 26, 16] +
    [ 5, 11, 23,  8, 12,  7, 17,  0] +
    [22,  3, 10, 14,  6, 20, 27, 24]

  /** Left-rotation amount of each key-schedule round (app.py:42). */
  const LS: seq<nat> := [1, 1, 2, 2, 2, 2, 2, 2, 1, 2, 2, 2, 2, 2, 2, 1]

  /** Expansion of a 32-bit half to 48 bits (app.py:45-52). */
  const E: seq<nat> :=
    [ 0, 31, 30, 29, 28, 27] +
    [28, 27, 26, 25, 24, 23] +
    [24, 23, 22, 21, 20, 19] +
    [20, 19, 18, 17, 16, 15] +
    [16, 15, 14, 13, 12, 11] +
    [12, 11, 10,  9,  8,  7] +
    [ 8,  7,  6,  5,  4,  3] +
    [ 4,  3,  2,  1,  0, 31]

  /** Permutation of the S-box output (app.py:55-58). */
  const P: seq<nat> :=
    [16, 25, 12, 11,  3, 20,  4, 15] +
    [31, 17,  9,  6, 27, 14,  1, 22] +
    [30, 24,  8, 18,  0,  5, 29, 23] +
    [13, 19,  2, 26, 10, 21, 28,  7]

  /** S-box 1 (app.py:61-64): four rows of sixteen 4-bit values. */
  const S1: seq<nat> :=
    [14,  4, 13,  1,  2, 15, 11,  8,  3, 10,  6, 12,  5,  9,  0,  7] +
    [ 0, 15,  7,  4, 14,  2, 13,  1, 10,  6, 12, 11,  9,  5,  3,  8] +
    [ 4,  1, 14,  8, 13,  6,  2, 11, 15, 12,  9,  7,  3, 10,  5,  0] +
    [15, 12,  8,  2,  4,  9,  1,  7,  5, 11,  3, 14, 10,  0,  6, 13]

  /** S-box 2 (app.py:67-70): four rows of sixteen 4-bit values. */
  const S2: seq<nat> :=
    [15,  1,  8, 14,  6, 11,  3,  4,  9,  7,  2, 13, 12,  0,  5, 10] +
    [ 3, 13,  4,  7, 15,  2,  8, 14, 12,  0,  1, 10,  6,  9, 11,  5] +
    [ 0, 14,  7, 11, 10,  4, 13,  1,  5,  8, 12,  6,  9,  3,  2, 15] +
    [13,  8, 10,  1,  3, 15,  4,  2, 11,  6,  7, 12,  0,  5, 14,  9]

  /** S-box 3 (app.py:73-76): four rows of sixteen 4-bit values. */
  const S3: seq<nat> :=
    [10,  0,  9, 14,  6,  3, 15,  5,  1, 13, 12,  7, 11,  4,  2,  8] +
    [13,  7,  0,  9,  3,  4,  6, 10,  2,  8,  5, 14, 12, 11, 15,  1] +
    [13,  6,  4,  9,  8, 15,  3,  0, 11,  1,  2, 12,  5, 10, 14,  7] +
    [ 1, 10, 13,  0,  6,  9,  8,  7,  4, 15, 14,  3, 11,  5,  2, 12]

  /** S-box 4 (app.py:79-82): four rows of sixteen 4-bit values. */
  const S4: seq<nat> :=
    [ 7, 13, 14,  3,  0,  6,  9, 10,  1,  2,  8,  5, 11, 12,  4, 15] +
    [13,  8, 11,  5,  6, 15,  0,  3,  4,  7,  2, 12,  1, 10, 14,  9] +
    [10,  6,  9,  0, 12, 11,  7, 13, 15,  1,  3, 14,  5,  2,  8,  4] +
    [ 3, 15,  0,  6, 10,  1, 13,  8,  9,  4,  5, 11, 12,  7,  2, 14]

  /** S-box 5 (app.py:85-88): four rows of sixteen 4-bit values. */
  const S5: seq<nat> :=
    [ 2, 12,  4,  1,  7, 10, 11,  6,  8,  5,  3, 15, 13,  0, 14,  9] +
    [14, 11,  2, 12,  4,  7, 13,  1,  5,  0, 15, 10,  3,  9,  8,  6] +
    [ 4,  2,  1, 11, 10, 13,  7,  8, 15,  9, 12,  5,  6,  3,  0, 14] +
    [11,  8, 12,  7,  1, 14,  2, 13,  6, 15,  0,  9, 10,  4,  5,  3]

  /** S-box 6 (app.py:91-94): four rows of sixteen 4-bit values. */
  const S6: seq<nat> :=
    [12,  1, 10, 15,  9,  2,  6,  8,  0, 13,  3,  4, 14,  7,  5, 11] +
    [10, 15,  4,  2,  7, 12,  9,  5,  6,  1, 13, 14,  0, 11,  3,  8] +
    [ 9, 14, 15,  5,  2,  8, 12,  3,  7,  0,  4, 10,  1, 13, 11,  6] +
    [ 4,  3,  2, 12,  9,  5, 15, 10, 11, 14,  1,  7,  6,  0,  8, 13]

  /** S-box 7 (app.py:97-100): four rows of sixteen 4-bit values. */
  const S7: seq<nat> :=
    [ 4, 11,  2, 14, 15,  0,  8, 13,  3, 12,  9,  7,  5, 10,  6,  1] +
    [13,  0, 11,  7,  4,  9,  1, 10, 14,  3,  5, 12,  2, 15,  8,  6] +
    [ 1,  4, 11, 13, 12,  3,  7, 14, 10, 15,  6,  8,  0,  5,  9,  2] +
    [ 6, 11, 13,  8,  1,  4, 10,  7,  9,  5,  0, 15, 14,  2,  3, 12]

  /** S-box 8 (app.py:103-106): four rows of sixteen 4-bit values. */
  const S8: seq<nat> :=
    [13,  2,  8,  4,  6, 15, 11,  1, 10,  9,  3, 14,  5,  0, 12,  7] +
    [ 1, 15, 13,  8, 10,  3,  7,  4, 12,  5,  6, 11,  0, 14,  9,  2] +
    [ 7, 11,  4,  1,  9, 12, 14,  2,  0,  6, 10, 13, 15,  3,  5,  8] +
    [ 2,  1, 14,  7,  4, 10,  8, 13, 15, 12,  9,  0,  3,  5,  6, 11]

  /** The eight S-boxes in the order `desRound` loads them (des.py:46-47). */
  const SBoxes: seq<seq<nat>> := [S1, S2, S3, S4, S5, S6, S7, S8]

  /**
   * Position `i` of `b` sends back what position |b|-1-i received: gathering
   * bits by `a` (output bit |a|-1-k is input bit a[k]) and then by `b`
   * returns bit |b|-1-i to its place.
   */
  predicate UndoesAt(a: seq<nat>, b: seq<nat>, i: nat)
    requires i < |b|
  {
    b[i] < |a| && a[|a| - 1 - b[i]] == |b| - 1 - i
  }

  predicate Undoes(a: seq<nat>, b: seq<nat>)
  {
    forall i :: 0 <= i < |b| ==> UndoesAt(a, b, i)
  }

  lemma MutualUndoGivesPermutation(a: seq<nat>, b: seq<nat>)
    requires |a| == |b| && Undoes(a, b) && Undoes(b, a)
    ensures IsPermutation(a, |a|)
  {
    var n := |a|;
    forall i | 0 <= i < n ensures a[i] < n {
      assert UndoesAt(b, a, i);
    }
    forall i, j | 0 <= i < j < n ensures a[i] != a[j] {
      assert UndoesAt(b, a, i) && UndoesAt(b, a, j);
    }
  }

  lemma OipUndoesIpFrom0()
    ensures |IP| == 64 && |OIP| == 64
    ensures forall i :: 0 <= i < 16 ==> UndoesAt(IP, OIP, i)
  {
    forall i | 0 <= i < 16 ensures UndoesAt(IP, OIP, i) {
      assert i == 0 || i == 1 || i == 2 || i == 3 || i == 4 || i == 5 || i == 6 || i == 7 || i == 8 || i == 9 || i == 10 || i == 11 || i == 12 || i == 13 || i == 14 || i == 15;
    }
  }

  lemma OipUndoesIpFrom16()
    ensures |IP| == 64 && |OIP| == 64
    ensures forall i :: 16 <= i < 32 ==> UndoesAt(IP, OIP, i)
  {
    forall i | 16 <= i < 32 ensures UndoesAt(IP, OIP, i) {
      assert i == 16 || i == 17 || i == 18 || i == 19 || i == 20 || i == 21 || i == 22 || i == 23 || i == 24 || i == 25 || i == 26 || i == 27 || i == 28 || i == 29 || i == 30 || i == 31;
    }
  }

  lemma OipUndoesIpFrom32()
    ensures |IP| == 64 && |OIP| == 64
    ensures forall i :: 32 <= i < 48 ==> UndoesAt(IP, OIP, i)
  {
    forall i | 32 <= i < 48 ensures UndoesAt(IP, OIP, i) {
      assert i == 32 || i == 33 || i == 34 || i == 35 || i == 36 || i == 37 || i == 38 || i == 39 || i == 40 || i == 41 || i == 42 || i == 43 || i == 44 || i == 45 || i == 46 || i == 47;
    }
  }

  lemma OipUndoesIpFrom48()
    ensures |IP| == 64 && |OIP| == 64
    ensures forall i :: 48 <= i < 64 ==> UndoesAt(IP, OIP, i)
  {
    forall i | 48 <= i < 64 ensures UndoesAt(IP, OIP, i) {
      assert i == 48 || i == 49 || i == 50 || i == 51 || i == 52 || i == 53 || i == 54 || i == 55 || i == 56 || i == 57 || i == 58 || i == 59 || i == 60 || i == 61 || i == 62 || i == 63;
    }
  }

  lemma IpUndoesOipFrom0()
    ensures |IP| == 64 && |OIP| == 64
    ensures forall i :: 0 <= i < 16 ==> UndoesAt(OIP, IP, i)
  {
    forall i | 0 <= i < 16 ensures UndoesAt(OIP, IP, i) {
      assert i == 0 || i == 1 || i == 2 || i == 3 || i == 4 || i == 5 || i == 6 || i == 7 || i == 8 || i == 9 || i == 10 || i == 11 || i == 12 || i == 13 || i == 14 || i == 15;
    }
  }

  lemma IpUndoesOipFrom16()
    ensures |IP| == 64 && |OIP| == 64
    ensures forall i :: 16 <= i < 32 ==> UndoesAt(OIP, IP, i)
  {
    forall i | 16 <= i < 32 ensures UndoesAt(OIP, IP, i) {
      assert i == 16 || i == 17 || i == 18 || i == 19 || i == 20 || i == 21 || i == 22 || i == 23 || i == 24 || i == 25 || i == 26 || i == 27 || i == 28 || i == 29 || i == 30 || i == 31;
    }
  }

  lemma IpUndoesOipFrom32()
    ensures |IP| == 64 && |OIP| == 64
    ensures forall i :: 32 <= i < 48 ==> UndoesAt(OIP, IP, i)
  {
    forall i | 32 <= i < 48 ensures UndoesAt(OIP, IP, i) {
      assert i == 32 || i == 33 || i == 34 || i == 35 || i == 36 || i == 37 || i == 38 || i == 39 || i == 40 || i == 41 || i == 42 || i == 43 || i == 44 || i == 45 || i == 46 || i == 47;
    }
  }

  lemma IpUndoesOipFrom48()
    ensures |IP| == 64 && |OIP| == 64
    ensures forall i :: 48 <= i < 64 ==> UndoesAt(OIP, IP, i)
  {
    forall i | 48 <= i < 64 ensures UndoesAt(OIP, IP, i) {
      assert i == 48 || i == 49 || i == 50 || i == 51 || i == 52 || i == 53 || i == 54 || i == 55 || i == 56 || i == 57 || i == 58 || i == 59 || i == 60 || i == 61 || i == 62 || i == 63;
    }
  }

  /**
   * OIP undoes IP and IP undoes OIP, so each is a permutation of the 64 bit
   * positions.
   */
  lemma InitialPermutationsInverse()
    ensures |IP| == 64 && |OIP| == 64
    ensures Undoes(IP, OIP) && Undoes(OIP, IP)
    ensures IsPermutation(IP, 64) && IsPermutation(OIP, 64)
  {
    OipUndoesIpFrom0();
    OipUndoesIpFrom16();
    OipUndoesIpFrom32();
    OipUndoesIpFrom48();
    IpUndoesOipFrom0();
    IpUndoesOipFrom16();
    IpUndoesOipFrom32();
    IpUndoesOipFrom48();
    MutualUndoGivesPermutation(IP, OIP);
    MutualUndoGivesPermutation(OIP, IP);
  }

  /** The position of each value in P: a witness that P is one-to-one. */
  ghost const PPosition: seq<nat> :=
    [20, 14, 26,  4,  6, 21, 11, 31] +
    [18, 10, 28,  3,  2, 24, 13,  7] +
    [ 0,  9, 19, 25,  5, 29, 15, 23] +
    [17,  1, 27, 12, 30, 22, 16,  8]

  lemma PInverted()
    ensures |P| == 32
    ensures forall i :: 0 <= i < 32 ==> InvertedAt(P, PPosition, 32, i)
  {
    forall i | 0 <= i < 32 ensures InvertedAt(P, PPosition, 32, i) {
      assert i == 0 || i == 1 || i == 2 || i == 3 || i == 4 || i == 5 || i == 6 || i == 7 || i == 8 || i == 9 || i == 10 || i == 11 || i == 12 || i == 13 || i == 14 || i == 15 || i == 16 || i == 17 || i == 18 || i == 19 || i == 20 || i == 21 || i == 22 || i == 23 || i == 24 || i == 25 || i == 26 || i == 27 || i == 28 || i == 29 || i == 30 || i == 31;
    }
  }

  /** P is a permutation of the 32 bit positions of the S-box output. */
  lemma PIsPermutation()
    ensures IsPermutation(P, 32)
  {
    PInverted();
    LeftInverseInjective(P, PPosition, 32);
  }

  /** E picks 48 bits out of a 32-bit half. */
  lemma ExpansionShape()
    ensures |E| == 48
    ensures forall i :: 0 <= i < 48 ==> E[i] < 32
  {
    forall i | 0 <= i < 48 ensures E[i] < 32 {
      assert i == 0 || i == 1 || i == 2 || i == 3 || i == 4 || i == 5 || i == 6 || i == 7 || i == 8 || i == 9 || i == 10 || i == 11 || i == 12 || i == 13 || i == 14 || i == 15 || i == 16 || i == 17 || i == 18 || i == 19 || i == 20 || i == 21 || i == 22 || i == 23 || i == 24 || i == 25 || i == 26 || i == 27 || i == 28 || i == 29 || i == 30 || i == 31 || i == 32 || i == 33 || i == 34 || i == 35 || i == 36 || i == 37 || i == 38 || i == 39 || i == 40 || i == 41 || i == 42 || i == 43 || i == 44 || i == 45 || i == 46 || i == 47;
    }
  }

  /** PC2 picks 48 bits out of the 56-bit key state. */
  lemma Pc2Shape()
    ensures |PC2| == 48
    ensures forall i :: 0 <= i < 48 ==> PC2[i] < 56
  {
    forall i | 0 <= i < 48 ensures PC2[i] < 56 {
      assert i == 0 || i == 1 || i == 2 || i == 3 || i == 4 || i == 5 || i == 6 || i == 7 || i == 8 || i == 9 || i == 10 || i == 11 || i == 12 || i == 13 || i == 14 || i == 15 || i == 16 || i == 17 || i == 18 || i == 19 || i == 20 || i == 21 || i == 22 || i == 23 || i == 24 || i == 25 || i == 26 || i == 27 || i == 28 || i == 29 || i == 30 || i == 31 || i == 32 || i == 33 || i == 34 || i == 35 || i == 36 || i == 37 || i == 38 || i == 39 || i == 40 || i == 41 || i == 42 || i == 43 || i == 44 || i == 45 || i == 46 || i == 47;
    }
  }

  /** The position of each value in PC1 (0 where it is absent). */
  ghost const Pc1Position: seq<nat> :=
    [ 0, 28, 36, 44, 24, 16,  8,  0] +
    [ 0, 29, 37, 45, 25, 17,  9,  1] +
    [ 0, 30, 38, 46, 26, 18, 10,  2] +
    [ 0, 31, 39, 47, 27, 19, 11,  3] +
    [ 0, 32, 40, 48, 52, 20, 12,  4] +
    [ 0, 33, 41, 49, 53, 21, 13,  5] +
    [ 0, 34, 42, 50, 54, 22, 14,  6] +
    [ 0, 35, 43, 51, 55, 23, 15,  7]

  /** Entry `i` of PC1 is a key bit that is not a parity bit. */
  ghost predicate Pc1EntryOk(i: nat)
    requires i < |PC1|
  {
    InvertedAt(PC1, Pc1Position, 64, i) && PC1[i] % 8 != 0
  }

  lemma Pc1EntriesLow()
    ensures |PC1| == 56
    ensures forall i :: 0 <= i < 28 ==> Pc1EntryOk(i)
  {
    forall i | 0 <= i < 28 ensures Pc1EntryOk(i) {
      assert i == 0 || i == 1 || i == 2 || i == 3 || i == 4 || i == 5 || i == 6 || i == 7 || i == 8 || i == 9 || i == 10 || i == 11 || i == 12 || i == 13 || i == 14 || i == 15 || i == 16 || i == 17 || i == 18 || i == 19 || i == 20 || i == 21 || i == 22 || i == 23 || i == 24 || i == 25 || i == 26 || i == 27;
    }
  }

  lemma Pc1EntriesHigh()
    ensures |PC1| == 56
    ensures forall i :: 28 <= i < 56 ==> Pc1EntryOk(i)
  {
    forall i | 28 <= i < 56 ensures Pc1EntryOk(i) {
      assert i == 28 || i == 29 || i == 30 || i == 31 || i == 32 || i == 33 || i == 34 || i == 35 || i == 36 || i == 37 || i == 38 || i == 39 || i == 40 || i == 41 || i == 42 || i == 43 || i == 44 || i == 45 || i == 46 || i == 47 || i == 48 || i == 49 || i == 50 || i == 51 || i == 52 || i == 53 || i == 54 || i == 55;
    }
  }

  /**
   * PC1 picks 56 distinct bits of the 64-bit key and never one of the
   * parity bits 0, 8, ..., 56.
   */
  lemma Pc1Shape()
    ensures |PC1| == 56 && AllBelow(PC1, 64)
    ensures forall i :: 0 <= i < 56 ==> PC1[i] % 8 != 0
    ensures forall i, j :: 0 <= i < j < 56 ==> PC1[i] != PC1[j]
  {
    Pc1EntriesLow();
    Pc1EntriesHigh();
    forall i | 0 <= i < 56 ensures InvertedAt(PC1, Pc1Position, 64, i) && PC1[i] % 8 != 0 {
      assert Pc1EntryOk(i);
    }
    LeftInverseInjective(PC1, Pc1Position, 64);
  }

  /** Sixteen rounds, each rotating the key halves by one or two bits. */
  lemma ShiftScheduleShape()
    ensures |LS| == 16
    ensures forall i :: 0 <= i < 16 ==> LS[i] == 1 || LS[i] == 2
  {
    forall i | 0 <= i < 16 ensures LS[i] == 1 || LS[i] == 2 {
      assert i == 0 || i == 1 || i == 2 || i == 3 || i == 4 || i == 5 || i == 6 || i == 7 || i == 8 || i == 9 || i == 10 || i == 11 || i == 12 || i == 13 || i == 14 || i == 15;
    }
  }

  /** Row `r` of an S-box: the sixteen entries selected by the outer bits. */
  function SBoxRow(box: seq<nat>, r: nat): seq<nat>
    requires |box| == 64 && r < 4
  {
    box[16 * r .. 16 * r + 16]
  }

  /** Column `c` of row `r` holds a 4-bit value that `inv` maps back to `c`. */
  predicate RowInvertedAt(box: seq<nat>, inv: seq<nat>, r: nat, c: nat)
    requires |box| == 64 && |inv| == 64 && r < 4 && c < 16
  {
    box[16 * r + c] < 16 && inv[16 * r + box[16 * r + c]] == c
  }

  lemma RowsArePermutations(box: seq<nat>, inv: seq<nat>)
    requires |box| == 64 && |inv| == 64
    requires forall r, c :: 0 <= r < 4 && 0 <= c < 16 ==> RowInvertedAt(box, inv, r, c)
    ensures AllBelow(box, 16)
    ensures forall r :: 0 <= r < 4 ==> IsPermutation(SBoxRow(box, r), 16)
  {
    forall i | 0 <= i < 64 ensures box[i] < 16 {
      assert RowInvertedAt(box, inv, i / 16, i % 16);
      assert 16 * (i / 16) + i % 16 == i;
    }
    forall r | 0 <= r < 4 ensures IsPermutation(SBoxRow(box, r), 16) {
      var row := SBoxRow(box, r);
      forall c, d | 0 <= c < d < 16 ensures row[c] != row[d] {
        assert RowInvertedAt(box, inv, r, c) && RowInvertedAt(box, inv, r, d);
      }
    }
  }

  /** Row by row, the column of each value of S-box 1. */
  ghost const S1Inverse: seq<nat> :=
    [14,  3,  4,  8,  1, 12, 10, 15,  7, 13,  9,  6, 11,  2,  0,  5] +
    [ 0,  7,  5, 14,  3, 13,  9,  2, 15, 12,  8, 11, 10,  6,  4,  1] +
    [15,  1,  6, 12,  0, 14,  5, 11,  3, 10, 13,  7,  9,  4,  2,  8] +
    [13,  6,  3, 10,  4,  8, 14,  7,  2,  5, 12,  9,  1, 15, 11,  0]

  lemma S1Row0()
    ensures |S1| == 64 && |S1Inverse| == 64
    ensures forall c :: 0 <= c < 16 ==> RowInvertedAt(S1, S1Inverse, 0, c)
  {
    forall c | 0 <= c < 16 ensures RowInvertedAt(S1, S1Inverse, 0, c) {
      assert c == 0 || c == 1 || c == 2 || c == 3 || c == 4 || c == 5 || c == 6 || c == 7 || c == 8 || c == 9 || c == 10 || c == 11 || c == 12 || c == 13 || c == 14 || c == 15;
    }
  }

  lemma S1Row1()
    ensures |S1| == 64 && |S1Inverse| == 64
    ensures forall c :: 0 <= c < 16 ==> RowInvertedAt(S1, S1Inverse, 1, c)
  {
    forall c | 0 <= c < 16 ensures RowInvertedAt(S1, S1Inverse, 1, c) {
      assert c == 0 || c == 1 || c == 2 || c == 3 || c == 4 || c == 5 || c == 6 || c == 7 || c == 8 || c == 9 || c == 10 || c == 11 || c == 12 || c == 13 || c == 14 || c == 15;
    }
  }

  lemma S1Row2()
    ensures |S1| == 64 && |S1Inverse| == 64
    ensures forall c :: 0 <= c < 16 ==> RowInvertedAt(S1, S1Inverse, 2, c)
  {
    forall c | 0 <= c < 16 ensures RowInvertedAt(S1, S1Inverse, 2, c) {
      assert c == 0 || c == 1 || c == 2 || c == 3 || c == 4 || c == 5 || c == 6 || c == 7 || c == 8 || c == 9 || c == 10 || c == 11 || c == 12 || c == 13 || c == 14 || c == 15;
    }
  }

  lemma S1Row3()
    ensures |S1| == 64 && |S1Inverse| == 64
    ensures forall c :: 0 <= c < 16 ==> RowInvertedAt(S1, S1Inverse, 3, c)
  {
    forall c | 0 <= c < 16 ensures RowInvertedAt(S1, S1Inverse, 3, c) {
      assert c == 0 || c == 1 || c == 2 || c == 3 || c == 4 || c == 5 || c == 6 || c == 7 || c == 8 || c == 9 || c == 10 || c == 11 || c == 12 || c == 13 || c == 14 || c == 15;
    }
  }

  /** Row by row, the column of each value of S-box 2. */
  ghost const S2Inverse: seq<nat> :=
    [13,  1, 10,  6,  7, 14,  4,  9,  2,  8, 15,  5, 12, 11,  3,  0] +
    [ 9, 10,  5,  0,  2, 15, 12,  3,  6, 13, 11, 14,  8,  1,  7,  4] +
    [ 0,  7, 14, 13,  5,  8, 11,  2,  9, 12,  4,  3, 10,  6,  1, 15] +
    [12,  3,  7,  4,  6, 13,  9, 10,  1, 15,  2,  8, 11,  0, 14,  5]

  lemma S2Row0()
    ensures |S2| == 64 && |S2Inverse| == 64
    ensures forall c :: 0 <= c < 16 ==> RowInvertedAt(S2, S2Inverse, 0, c)
  {
    forall c | 0 <= c < 16 ensures RowInvertedAt(S2, S2Inverse, 0, c) {
      assert c == 0 || c == 1 || c == 2 || c == 3 || c == 4 || c == 5 || c == 6 || c == 7 || c == 8 || c == 9 || c == 10 || c == 11 || c == 12 || c == 13 || c == 14 || c == 15;
    }
  }

  lemma S2Row1()
    ensures |S2| == 64 && |S2Inverse| == 64
    ensures forall c :: 0 <= c < 16 ==> RowInvertedAt(S2, S2Inverse, 1, c)
  {
    forall c | 0 <= c < 16 ensures RowInvertedAt(S2, S2Inverse, 1, c) {
      assert c == 0 || c == 1 || c == 2 || c == 3 || c == 4 || c == 5 || c == 6 || c == 7 || c == 8 || c == 9 || c == 10 || c == 11 || c == 12 || c == 13 || c == 14 || c == 15;
    }
  }

  lemma S2Row2()
    ensures |S2| == 64 && |S2Inverse| == 64
    ensures forall c :: 0 <= c < 16 ==> RowInvertedAt(S2, S2Inverse, 2, c)
  {
    forall c | 0 <= c < 16 ensures RowInvertedAt(S2, S2Inverse, 2, c) {
      assert c == 0 || c == 1 || c == 2 || c == 3 || c == 4 || c == 5 || c == 6 || c == 7 || c == 8 || c == 9 || c == 10 || c == 11 || c == 12 || c == 13 || c == 14 || c == 15;
    }
  }

  lemma S2Row3()
    ensures |S2| == 64 && |S2Inverse| == 64
    ensures forall c :: 0 <= c < 16 ==> RowInvertedAt(S2, S2Inverse, 3, c)
  {
    forall c | 0 <= c < 16 ensures RowInvertedAt(S2, S2Inverse, 3, c) {
      assert c == 0 || c == 1 || c == 2 || c == 3 || c == 4 || c == 5 || c == 6 || c == 7 || c == 8 || c == 9 || c == 10 || c == 11 || c == 12 || c == 13 || c == 14 || c == 15;
    }
  }

  /** Row by row, the column of each value of S-box 3. */
  ghost const S3Inverse: seq<nat> :=
    [ 1,  8, 14,  5, 13,  7,  4, 11, 15,  2,  0, 12, 10,  9,  3,  6] +
    [ 2, 15,  8,  4,  5, 10,  6,  1,  9,  3,  7, 13, 12,  0, 11, 14] +
    [ 7,  9, 10,  6,  2, 12,  1, 15,  4,  3, 13,  8, 11,  0, 14,  5] +
    [ 3,  0, 14, 11,  8, 13,  4,  7,  6,  5,  1, 12, 15,  2, 10,  9]

  lemma S3Row0()
    ensures |S3| == 64 && |S3Inverse| == 64
    ensures forall c :: 0 <= c < 16 ==> RowInvertedAt(S3, S3Inverse, 0, c)
  {
    forall c | 0 <= c < 16 ensures RowInvertedAt(S3, S3Inverse, 0, c) {
      assert c == 0 || c == 1 || c == 2 || c == 3 || c == 4 || c == 5 || c == 6 || c == 7 || c == 8 || c == 9 || c == 10 || c == 11 || c == 12 || c == 13 || c == 14 || c == 15;
    }
  }

  lemma S3Row1()
    ensures |S3| == 64 && |S3Inverse| == 64
    ensures forall c :: 0 <= c < 16 ==> RowInvertedAt(S3, S3Inverse, 1, c)
  {
    forall c | 0 <= c < 16 ensures RowInvertedAt(S3, S3Inverse, 1, c) {
      assert c == 0 || c == 1 || c == 2 || c == 3 || c == 4 || c == 5 || c == 6 || c == 7 || c == 8 || c == 9 || c == 10 || c == 11 || c == 12 || c == 13 || c == 14 || c == 15;
    }
  }

  lemma S3Row2()
    ensures |S3| == 64 && |S3Inverse| == 64
    ensures forall c :: 0 <= c < 16 ==> RowInvertedAt(S3, S3Inverse, 2, c)
  {
    forall c | 0 <= c < 16 ensures RowInvertedAt(S3, S3Inverse, 2, c) {
      assert c == 0 || c == 1 || c == 2 || c == 3 || c == 4 || c == 5 || c == 6 || c == 7 || c == 8 || c == 9 || c == 10 || c == 11 || c == 12 || c == 13 || c == 14 || c == 15;
    }
  }

  lemma S3Row3()
    ensures |S3| == 64 && |S3Inverse| == 64
    ensures forall c :: 0 <= c < 16 ==> RowInvertedAt(S3, S3Inverse, 3, c)
  {
    forall c | 0 <= c < 16 ensures RowInvertedAt(S3, S3Inverse, 3, c) {
      assert c == 0 || c == 1 || c == 2 || c == 3 || c == 4 || c == 5 || c == 6 || c == 7 || c == 8 || c == 9 || c == 10 || c == 11 || c == 12 || c == 13 || c == 14 || c == 15;
    }
  }

  /** Row by row, the column of each value of S-box 4. */
  ghost const S4Inverse: seq<nat> :=
    [ 4,  8,  9,  3, 14, 11,  5,  0, 10,  6,  7, 12, 13,  1,  2, 15] +
    [ 6, 12, 10,  7,  8,  3,  4,  9,  1, 15, 13,  2, 11,  0, 14,  5] +
    [ 3,  9, 13, 10, 15, 12,  1,  6, 14,  2,  0,  5,  4,  7, 11,  8] +
    [ 2,  5, 14,  0,  9, 10,  3, 13,  7,  8,  4, 11, 12,  6, 15,  1]

  lemma S4Row0()
    ensures |S4| == 64 && |S4Inverse| == 64
    ensures forall c :: 0 <= c < 16 ==> RowInvertedAt(S4, S4Inverse, 0, c)
  {
    forall c | 0 <= c < 16 ensures RowInvertedAt(S4, S4Inverse, 0, c) {
      assert c == 0 || c == 1 || c == 2 || c == 3 || c == 4 || c == 5 || c == 6 || c == 7 || c == 8 || c == 9 || c == 10 || c == 11 || c == 12 || c == 13 || c == 14 || c == 15;
    }
  }

  lemma S4Row1()
    ensures |S4| == 64 && |S4Inverse| == 64
    ensures forall c :: 0 <= c < 16 ==> RowInvertedAt(S4, S4Inverse, 1, c)
  {
    forall c | 0 <= c < 16 ensures RowInvertedAt(S4, S4Inverse, 1, c) {
      assert c == 0 || c == 1 || c == 2 || c == 3 || c == 4 || c == 5 || c == 6 || c == 7 || c == 8 || c == 9 || c == 10 || c == 11 || c == 12 || c == 13 || c == 14 || c == 15;
    }
  }

  lemma S4Row2()
    ensures |S4| == 64 && |S4Inverse| == 64
    ensures forall c :: 0 <= c < 16 ==> RowInvertedAt(S4, S4Inverse, 2, c)
  {
    forall c | 0 <= c < 16 ensures RowInvertedAt(S4, S4Inverse, 2, c) {
      assert c == 0 || c == 1 || c == 2 || c == 3 || c == 4 || c == 5 || c == 6 || c == 7 || c == 8 || c == 9 || c == 10 || c == 11 || c == 12 || c == 13 || c == 14 || c == 15;
    }
  }

  lemma S4Row3()
    ensures |S4| == 64 && |S4Inverse| == 64
    ensures forall c :: 0 <= c < 16 ==> RowInvertedAt(S4, S4Inverse, 3, c)
  {
    forall c | 0 <= c < 16 ensures RowInvertedAt(S4, S4Inverse, 3, c) {
      assert c == 0 || c == 1 || c == 2 || c == 3 || c == 4 || c == 5 || c == 6 || c == 7 || c == 8 || c == 9 || c == 10 || c == 11 || c == 12 || c == 13 || c == 14 || c == 15;
    }
  }

  /** Row by row, the column of each value of S-box 5. */
  ghost const S5Inverse: seq<nat> :=
    [13,  3,  0, 10,  2,  9,  7,  4,  8, 15,  5,  6,  1, 12, 14, 11] +
    [ 9,  7,  2, 12,  4,  8, 15,  5, 14, 13, 11,  1,  3,  6,  0, 10] +
    [14,  2,  1, 13,  0, 11, 12,  6,  7,  9,  4,  3, 10,  5, 15,  8] +
    [10,  4,  6, 15, 13, 14,  8,  3,  1, 11, 12,  0,  2,  7,  5,  9]

  lemma S5Row0()
    ensures |S5| == 64 && |S5Inverse| == 64
    ensures forall c :: 0 <= c < 16 ==> RowInvertedAt(S5, S5Inverse, 0, c)
  {
    forall c | 0 <= c < 16 ensures RowInvertedAt(S5, S5Inverse, 0, c) {
      assert c == 0 || c == 1 || c == 2 || c == 3 || c == 4 || c == 5 || c == 6 || c == 7 || c == 8 || c == 9 || c == 10 || c == 11 || c == 12 || c == 13 || c == 14 || c == 15;
    }
  }

  lemma S5Row1()
    ensures |S5| == 64 && |S5Inverse| == 64
    ensures forall c :: 0 <= c < 16 ==> RowInvertedAt(S5, S5Inverse, 1, c)
  {
    forall c | 0 <= c < 16 ensures RowInvertedAt(S5, S5Inverse, 1, c) {
      assert c == 0 || c == 1 || c == 2 || c == 3 || c == 4 || c == 5 || c == 6 || c == 7 || c == 8 || c == 9 || c == 10 || c == 11 || c == 12 || c == 13 || c == 14 || c == 15;
    }
  }

  lemma S5Row2()
    ensures |S5| == 64 && |S5Inverse| == 64
    ensures forall c :: 0 <= c < 16 ==> RowInvertedAt(S5, S5Inverse, 2, c)
  {
    forall c | 0 <= c < 16 ensures RowInvertedAt(S5, S5Inverse, 2, c) {
      assert c == 0 || c == 1 || c == 2 || c == 3 || c == 4 || c == 5 || c == 6 || c == 7 || c == 8 || c == 9 || c == 10 || c == 11 || c == 12 || c == 13 || c == 14 || c == 15;
    }
  }

  lemma S5Row3()
    ensures |S5| == 64 && |S5Inverse| == 64
    ensures forall c :: 0 <= c < 16 ==> RowInvertedAt(S5, S5Inverse, 3, c)
  {
    forall c | 0 <= c < 16 ensures RowInvertedAt(S5, S5Inverse, 3, c) {
      assert c == 0 || c == 1 || c == 2 || c == 3 || c == 4 || c == 5 || c == 6 || c == 7 || c == 8 || c == 9 || c == 10 || c == 11 || c == 12 || c == 13 || c == 14 || c == 15;
    }
  }

  /** Row by row, the column of each value of S-box 6. */
  ghost const S6Inverse: seq<nat> :=
    [ 8,  1,  5, 10, 11, 14,  6, 13,  7,  4,  2, 15,  0,  9, 12,  3] +
    [12,  9,  3, 14,  2,  7,  8,  4, 15,  6,  0, 13,  5, 10, 11,  1] +
    [ 9, 12,  4,  7, 10,  3, 15,  8,  5,  0, 11, 14,  6, 13,  1,  2] +
    [13, 10,  2,  1,  0,  5, 12, 11, 14,  4,  7,  8,  3, 15,  9,  6]

  lemma S6Row0()
    ensures |S6| == 64 && |S6Inverse| == 64
    ensures forall c :: 0 <= c < 16 ==> RowInvertedAt(S6, S6Inverse, 0, c)
  {
    forall c | 0 <= c < 16 ensures RowInvertedAt(S6, S6Inverse, 0, c) {
      assert c == 0 || c == 1 || c == 2 || c == 3 || c == 4 || c == 5 || c == 6 || c == 7 || c == 8 || c == 9 || c == 10 || c == 11 || c == 12 || c == 13 || c == 14 || c == 15;
    }
  }

  lemma S6Row1()
    ensures |S6| == 64 && |S6Inverse| == 64
    ensures forall c :: 0 <= c < 16 ==> RowInvertedAt(S6, S6Inverse, 1, c)
  {
    forall c | 0 <= c < 16 ensures RowInvertedAt(S6, S6Inverse, 1, c) {
      assert c == 0 || c == 1 || c == 2 || c == 3 || c == 4 || c == 5 || c == 6 || c == 7 || c == 8 || c == 9 || c == 10 || c == 11 || c == 12 || c == 13 || c == 14 || c == 15;
    }
  }

  lemma S6Row2()
    ensures |S6| == 64 && |S6Inverse| == 64
    ensures forall c :: 0 <= c < 16 ==> RowInvertedAt(S6, S6Inverse, 2, c)
  {
    forall c | 0 <= c < 16 ensures RowInvertedAt(S6, S6Inverse, 2, c) {
      assert c == 0 || c == 1 || c == 2 || c == 3 || c == 4 || c == 5 || c == 6 || c == 7 || c == 8 || c == 9 || c == 10 || c == 11 || c == 12 || c == 13 || c == 14 || c == 15;
    }
  }

  lemma S6Row3()
    ensures |S6| == 64 && |S6Inverse| == 64
    ensures forall c :: 0 <= c < 16 ==> RowInvertedAt(S6, S6Inverse, 3, c)
  {
    forall c | 0 <= c < 16 ensures RowInvertedAt(S6, S6Inverse, 3, c) {
      assert c == 0 || c == 1 || c == 2 || c == 3 || c == 4 || c == 5 || c == 6 || c == 7 || c == 8 || c == 9 || c == 10 || c == 11 || c == 12 || c == 13 || c == 14 || c == 15;
    }
  }

  /** Row by row, the column of each value of S-box 7. */
  ghost const S7Inverse: seq<nat> :=
    [ 5, 15,  2,  8,  0, 12, 14, 11,  6, 10, 13,  1,  9,  7,  3,  4] +
    [ 1,  6, 12,  9,  4, 10, 15,  3, 14,  5,  7,  2, 11,  0,  8, 13] +
    [12,  0, 15,  5,  1, 13, 10,  6, 11, 14,  8,  2,  4,  3,  7,  9] +
    [10,  4, 13, 14,  5,  9,  0,  7,  3,  8,  6,  1, 15,  2, 12, 11]

  lemma S7Row0()
    ensures |S7| == 64 && |S7Inverse| == 64
    ensures forall c :: 0 <= c < 16 ==> RowInvertedAt(S7, S7Inverse, 0, c)
  {
    forall c | 0 <= c < 16 ensures RowInvertedAt(S7, S7Inverse, 0, c) {
      assert c == 0 || c == 1 || c == 2 || c == 3 || c == 4 || c == 5 || c == 6 || c == 7 || c == 8 || c == 9 || c == 10 || c == 11 || c == 12 || c == 13 || c == 14 || c == 15;
    }
  }

  lemma S7Row1()
    ensures |S7| == 64 && |S7Inverse| == 64
    ensures forall c :: 0 <= c < 16 ==> RowInvertedAt(S7, S7Inverse, 1, c)
  {
    forall c | 0 <= c < 16 ensures RowInvertedAt(S7, S7Inverse, 1, c) {
      assert c == 0 || c == 1 || c == 2 || c == 3 || c == 4 || c == 5 || c == 6 || c == 7 || c == 8 || c == 9 || c == 10 || c == 11 || c == 12 || c == 13 || c == 14 || c == 15;
    }
  }

  lemma S7Row2()
    ensures |S7| == 64 && |S7Inverse| == 64
    ensures forall c :: 0 <= c < 16 ==> RowInvertedAt(S7, S7Inverse, 2, c)
  {
    forall c | 0 <= c < 16 ensures RowInvertedAt(S7, S7Inverse, 2, c) {
      assert c == 0 || c == 1 || c == 2 || c == 3 || c == 4 || c == 5 || c == 6 || c == 7 || c == 8 || c == 9 || c == 10 || c == 11 || c == 12 || c == 13 || c == 14 || c == 15;
    }
  }

  lemma S7Row3()
    ensures |S7| == 64 && |S7Inverse| == 64
    ensures forall c :: 0 <= c < 16 ==> RowInvertedAt(S7, S7Inverse, 3, c)
  {
    forall c | 0 <= c < 16 ensures RowInvertedAt(S7, S7Inverse, 3, c) {
      assert c == 0 || c == 1 || c == 2 || c == 3 || c == 4 || c == 5 || c == 6 || c == 7 || c == 8 || c == 9 || c == 10 || c == 11 || c == 12 || c == 13 || c == 14 || c == 15;
    }
  }

  /** Row by row, the column of each value of S-box 8. */
  ghost const S8Inverse: seq<nat> :=
    [13,  7,  1, 10,  3, 12,  4, 15,  2,  9,  8,  6, 14,  0, 11,  5] +
    [12,  0, 15,  5,  7,  9, 10,  6,  3, 14,  4, 11,  8,  2, 13,  1] +
    [ 8,  3,  7, 13,  2, 14,  9,  0, 15,  4, 10,  1,  5, 11,  6, 12] +
    [11,  1,  0, 12,  4, 13, 14,  3,  6, 10,  5, 15,  9,  7,  2,  8]

  lemma S8Row0()
    ensures |S8| == 64 && |S8Inverse| == 64
    ensures forall c :: 0 <= c < 16 ==> RowInvertedAt(S8, S8Inverse, 0, c)
  {
    forall c | 0 <= c < 16 ensures RowInvertedAt(S8, S8Inverse, 0, c) {
      assert c == 0 || c == 1 || c == 2 || c == 3 || c == 4 || c == 5 || c == 6 || c == 7 || c == 8 || c == 9 || c == 10 || c == 11 || c == 12 || c == 13 || c == 14 || c == 15;
    }
  }

  lemma S8Row1()
    ensures |S8| == 64 && |S8Inverse| == 64
    ensures forall c :: 0 <= c < 16 ==> RowInvertedAt(S8, S8Inverse, 1, c)
  {
    forall c | 0 <= c < 16 ensures RowInvertedAt(S8, S8Inverse, 1, c) {
      assert c == 0 || c == 1 || c == 2 || c == 3 || c == 4 || c == 5 || c == 6 || c == 7 || c == 8 || c == 9 || c == 10 || c == 11 || c == 12 || c == 13 || c == 14 || c == 15;
    }
  }

  lemma S8Row2()
    ensures |S8| == 64 && |S8Inverse| == 64
    ensures forall c :: 0 <= c < 16 ==> RowInvertedAt(S8, S8Inverse, 2, c)
  {
    forall c | 0 <= c < 16 ensures RowInvertedAt(S8, S8Inverse, 2, c) {
      assert c == 0 || c == 1 || c == 2 || c == 3 || c == 4 || c == 5 || c == 6 || c == 7 || c == 8 || c == 9 || c == 10 || c == 11 || c == 12 || c == 13 || c == 14 || c == 15;
    }
  }

  lemma S8Row3()
    ensures |S8| == 64 && |S8Inverse| == 64
    ensures forall c :: 0 <= c < 16 ==> RowInvertedAt(S8, S8Inverse, 3, c)
  {
    forall c | 0 <= c < 16 ensures RowInvertedAt(S8, S8Inverse, 3, c) {
      assert c == 0 || c == 1 || c == 2 || c == 3 || c == 4 || c == 5 || c == 6 || c == 7 || c == 8 || c == 9 || c == 10 || c == 11 || c == 12 || c == 13 || c == 14 || c == 15;
    }
  }

  lemma S1Shape()
    ensures |S1| == 64 && AllBelow(S1, 16)
    ensures forall r :: 0 <= r < 4 ==> IsPermutation(SBoxRow(S1, r), 16)
  {
    S1Row0(); S1Row1(); S1Row2(); S1Row3();
    forall r, c | 0 <= r < 4 && 0 <= c < 16 ensures RowInvertedAt(S1, S1Inverse, r, c) {
      assert r == 0 || r == 1 || r == 2 || r == 3;
    }
    RowsArePermutations(S1, S1Inverse);
  }

  lemma S2Shape()
    ensures |S2| == 64 && AllBelow(S2, 16)
    ensures forall r :: 0 <= r < 4 ==> IsPermutation(SBoxRow(S2, r), 16)
  {
    S2Row0(); S2Row1(); S2Row2(); S2Row3();
    forall r, c | 0 <= r < 4 && 0 <= c < 16 ensures RowInvertedAt(S2, S2Inverse, r, c) {
      assert r == 0 || r == 1 || r == 2 || r == 3;
    }
    RowsArePermutations(S2, S2Inverse);
  }

  lemma S3Shape()
    ensures |S3| == 64 && AllBelow(S3, 16)
    ensures forall r :: 0 <= r < 4 ==> IsPermutation(SBoxRow(S3, r), 16)
  {
    S3Row0(); S3Row1(); S3Row2(); S3Row3();
    forall r, c | 0 <= r < 4 && 0 <= c < 16 ensures RowInvertedAt(S3, S3Inverse, r, c) {
      assert r == 0 || r == 1 || r == 2 || r == 3;
    }
    RowsArePermutations(S3, S3Inverse);
  }

  lemma S4Shape()
    ensures |S4| == 64 && AllBelow(S4, 16)
    ensures forall r :: 0 <= r < 4 ==> IsPermutation(SBoxRow(S4, r), 16)
  {
    S4Row0(); S4Row1(); S4Row2(); S4Row3();
    forall r, c | 0 <= r < 4 && 0 <= c < 16 ensures RowInvertedAt(S4, S4Inverse, r, c) {
      assert r == 0 || r == 1 || r == 2 || r == 3;
    }
    RowsArePermutations(S4, S4Inverse);
  }

  lemma S5Shape()
    ensures |S5| == 64 && AllBelow(S5, 16)
    ensures forall r :: 0 <= r < 4 ==> IsPermutation(SBoxRow(S5, r), 16)
  {
    S5Row0(); S5Row1(); S5Row2(); S5Row3();
    forall r, c | 0 <= r < 4 && 0 <= c < 16 ensures RowInvertedAt(S5, S5Inverse, r, c) {
      assert r == 0 || r == 1 || r == 2 || r == 3;
    }
    RowsArePermutations(S5, S5Inverse);
  }

  lemma S6Shape()
    ensures |S6| == 64 && AllBelow(S6, 16)
    ensures forall r :: 0 <= r < 4 ==> IsPermutation(SBoxRow(S6, r), 16)
  {
    S6Row0(); S6Row1(); S6Row2(); S6Row3();
    forall r, c | 0 <= r < 4 && 0 <= c < 16 ensures RowInvertedAt(S6, S6Inverse, r, c) {
      assert r == 0 || r == 1 || r == 2 || r == 3;
    }
    RowsArePermutations(S6, S6Inverse);
  }

  lemma S7Shape()
    ensures |S7| == 64 && AllBelow(S7, 16)
    ensures forall r :: 0 <= r < 4 ==> IsPermutation(SBoxRow(S7, r), 16)
  {
    S7Row0(); S7Row1(); S7Row2(); S7Row3();
    forall r, c | 0 <= r < 4 && 0 <= c < 16 ensures RowInvertedAt(S7, S7Inverse, r, c) {
      assert r == 0 || r == 1 || r == 2 || r == 3;
    }
    RowsArePermutations(S7, S7Inverse);
  }

  lemma S8Shape()
    ensures |S8| == 64 && AllBelow(S8, 16)
    ensures forall r :: 0 <= r < 4 ==> IsPermutation(SBoxRow(S8, r), 16)
  {
    S8Row0(); S8Row1(); S8Row2(); S8Row3();
    forall r, c | 0 <= r < 4 && 0 <= c < 16 ensures RowInvertedAt(S8, S8Inverse, r, c) {
      assert r == 0 || r == 1 || r == 2 || r == 3;
    }
    RowsArePermutations(S8, S8Inverse);
  }

  /**
   * Every S-box has 64 entries, four rows of sixteen, and every row is a
   * permutation of 0..15; so every entry is a 4-bit value.
   */
  lemma SBoxesShape()
    ensures |SBoxes| == 8
    ensures forall j :: 0 <= j < 8 ==> |SBoxes[j]| == 64 && AllBelow(SBoxes[j], 16)
    ensures forall j, r :: 0 <= j < 8 && 0 <= r < 4 ==> IsPermutation(SBoxRow(SBoxes[j], r), 16)
  {
    S1Shape(); S2Shape(); S3Shape(); S4Shape(); S5Shape(); S6Shape(); S7Shape(); S8Shape();
    forall j | 0 <= j < 8
      ensures |SBoxes[j]| == 64 && AllBelow(SBoxes[j], 16)
      ensures forall r :: 0 <= r < 4 ==> IsPermutation(SBoxRow(SBoxes[j], r), 16)
    {
      assert j == 0 || j == 1 || j == 2 || j == 3 || j == 4 || j == 5 || j == 6 || j == 7;
    }
  }
}
