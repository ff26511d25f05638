/**
 * The Data Encryption Algorithm of des.py (FIPS PUB 46-3): the bit gathering
 * `permute`, the key schedule, one Feistel round and the whole cipher.
 * Blocks, keys and subkeys are Python integers, modelled as naturals; the
 * bitwise operators are those of module Bits.
 */
module Des {
  import opened Bits
  import opened Outcomes
  import opened DesTables

  /*** permute (des.py:6-10) ***/

  /**
   * What `permute(text, box)` computes: output bits are emitted most
   * significant first, the one for `box[i]` being input bit `box[i]`.
   */
  function Permuted(text: nat, box: seq<nat>): nat
  {
    if |box| == 0 then 0
    else Or(Permuted(text, box[..|box| - 1]) * 2, Bit(text, box[|box| - 1]))
  }

  /** One iteration of the loop at des.py:9: the result so far moves up and takes the next bit. */
  lemma PermutedStep(text: nat, box: seq<nat>)
    requires |box| > 0
    ensures Permuted(text, box) ==
      Permuted(text, box[..|box| - 1]) * Pow2(1) + Bit(text, box[|box| - 1])
  {
    Pow2Values();
    OrShifted(Permuted(text, box[..|box| - 1]), Bit(text, box[|box| - 1]), 1);
  }

  /** Shifting an n-bit value left by one and adding a bit. */
  lemma AppendBit(prev: nat, last: nat, n: nat)
    requires last <= 1 && prev < Pow2(n)
    ensures prev * Pow2(1) + last < Pow2(n + 1)
    ensures Bit(prev * Pow2(1) + last, 0) == last
    ensures forall k :: 0 <= k < n ==> Bit(prev * Pow2(1) + last, k + 1) == Bit(prev, k)
  {
    assert Pow2(1) == 2;
    BitOfShiftedSum(prev, last, 1, 0);
    BitZero(last);
    forall k | 0 <= k < n ensures Bit(prev * Pow2(1) + last, k + 1) == Bit(prev, k) {
      BitOfShiftedSum(prev, last, 1, k + 1);
    }
  }

  /** Bit |box|-1-i of `permute(text, box)` is bit `box[i]` of `text`. */
  lemma {:induction false} PermutedBits(text: nat, box: seq<nat>)
    ensures Permuted(text, box) < Pow2(|box|)
    ensures forall i :: 0 <= i < |box| ==>
      Bit(Permuted(text, box), |box| - 1 - i) == Bit(text, box[i])
  {
    var n := |box|;
    if n > 0 {
      var front := box[..n - 1];
      PermutedBits(text, front);
      PermutedStep(text, box);
      AppendBit(Permuted(text, front), Bit(text, box[n - 1]), n - 1);
      forall i | 0 <= i < n ensures Bit(Permuted(text, box), n - 1 - i) == Bit(text, box[i]) {
        if i < n - 1 {
          assert n - 1 - i == (n - 2 - i) + 1;
          assert front[i] == box[i];
        }
      }
    }
  }

  /** Two texts that agree on every bit `box` reads give the same output. */
  lemma {:induction false} PermutedReadsOnlyBox(x: nat, y: nat, box: seq<nat>)
    requires forall i :: 0 <= i < |box| ==> Bit(x, box[i]) == Bit(y, box[i])
    ensures Permuted(x, box) == Permuted(y, box)
  {
    if |box| > 0 {
      PermutedReadsOnlyBox(x, y, box[..|box| - 1]);
    }
  }

  /** Gathering by `a` and then by a table `b` that undoes it gives the text back. */
  lemma PermutedUndone(x: nat, a: seq<nat>, b: seq<nat>)
    requires Undoes(a, b) && x < Pow2(|b|)
    ensures Permuted(Permuted(x, a), b) == x
  {
    var y := Permuted(x, a);
    var z := Permuted(y, b);
    PermutedBits(x, a);
    PermutedBits(y, b);
    forall i | 0 <= i < |b| ensures Bit(z, i) == Bit(x, i) {
      var k := |b| - 1 - i;
      assert UndoesAt(a, b, k);
      assert Bit(z, |b| - 1 - k) == Bit(y, b[k]);
      assert Bit(y, |a| - 1 - (|a| - 1 - b[k])) == Bit(x, a[|a| - 1 - b[k]]);
    }
    BitsDetermineBelow(z, x, |b|);
  }

  method Permute(text: nat, box: seq<nat>) returns (result: nat)
    ensures result == Permuted(text, box)
    ensures result < Pow2(|box|)
    ensures forall i :: 0 <= i < |box| ==> Bit(result, |box| - 1 - i) == Bit(text, box[i])
  {
    result := 0;
    for i := 0 to |box|
      invariant result == Permuted(text, box[..i])
    {
      assert box[..i + 1][..i] == box[..i];
      result := Or(result * 2, Bit(text, box[i]));
    }
    assert box[..|box|] == box;
    PermutedBits(text, box);
  }

  /** IP followed by its inverse is the identity on 64-bit blocks, and the other way round. */
  lemma InitialPermutationRoundTrip(x: nat)
    requires x < Pow2(64)
    ensures Permuted(Permuted(x, IP), OIP) == x
    ensures Permuted(Permuted(x, OIP), IP) == x
  {
    InitialPermutationsInverse();
    PermutedUndone(x, IP, OIP);
    PermutedUndone(x, OIP, IP);
  }

  /*** keySchedule (des.py:14-38) ***/

  /** One 28-bit half rotated left by `s` (des.py:27-28). */
  function RotateHalf(h: nat, s: nat): nat
    requires s <= 28
  {
    Rotate(h, s, 28)
  }

  /** `((h << s) + (h >> (w - s))) & (2^w - 1)`. */
  function Rotate(h: nat, s: nat, w: nat): nat
    requires s <= w
  {
    Low(Shl(h, s) + High(h, w - s), w)
  }

  /**
   * Rotate on a `w`-bit value `h` is the low w - s bits moved up by `s`
   * above the high `s` bits moved down.
   */
  lemma RotationValue(h: nat, s: nat, w: nat)
    requires h < Pow2(w) && 0 < s < w
    ensures Rotate(h, s, w) == Shl(Low(h, w - s), s) + High(h, w - s)
    ensures Shl(Low(h, w - s), s) + High(h, w - s) < Pow2(w)
  {
    var m := w - s;
    var lo, hi := Low(h, m), High(h, m);
    HighLow(h, m);
    assert h < Pow2(m + s);
    SplitJoins(h, m, s);
    JoinSplits(lo, hi, s);
    JoinBelow(lo, hi, s, m);
    var r := Shl(lo, s) + hi;
    assert r == Join(lo, hi, s) && r < Pow2(w);
    ShlOfSum(hi, lo, m, s);
    assert Shl(h, s) + hi == hi * Pow2(w) + r;
    JoinSplits(hi, r, w);
  }

  /** Bit `b` of a `w`-bit value moves to bit b + s, wrapped below w, under the rotation. */
  lemma RotationBit(h: nat, s: nat, w: nat, b: nat)
    requires h < Pow2(w) && 0 < s < w && b < w
    ensures Bit(Shl(Low(h, w - s), s) + High(h, w - s), if b + s < w then b + s else b + s - w) == Bit(h, b)
  {
    if b < w - s {
      RotationBitLow(h, s, w, b);
    } else {
      RotationBitHigh(h, s, w, b);
    }
  }

  lemma WrapMod(k: nat, w: nat)
    requires 0 < w && k < 2 * w
    ensures k % w == if k < w then k else k - w
  {
    if k < w {
      DivModUnique(k, w, 0, k);
    } else {
      DivModUnique(k, w, 1, k - w);
    }
  }

  /** The low w - s bits move up by `s`. */
  lemma RotationBitLow(h: nat, s: nat, w: nat, b: nat)
    requires h < Pow2(w) && 0 < s < w && b < w - s
    ensures Bit(Shl(Low(h, w - s), s) + High(h, w - s), b + s) == Bit(h, b)
  {
    var m := w - s;
    var lo, hi := Low(h, m), High(h, m);
    assert h < Pow2(m + s);
    HighBelow(h, m, s);
    var x := Shl(lo, s) + hi;
    assert x == lo * Pow2(s) + hi;
    BitOfShiftedSum(lo, hi, s, b + s);
    assert Bit(x, b + s) == Bit(lo, b);
    assert lo == h % Pow2(m);
    BitOfMod(h, m, b);
  }

  /** The high `s` bits move down to the bottom. */
  lemma RotationBitHigh(h: nat, s: nat, w: nat, b: nat)
    requires h < Pow2(w) && 0 < s < w && w - s <= b < w
    ensures Bit(Shl(Low(h, w - s), s) + High(h, w - s), b + s - w) == Bit(h, b)
  {
    var m := w - s;
    var lo, hi := Low(h, m), High(h, m);
    HighBelow(h, m, s);
    assert Shl(lo, s) == lo * Pow2(s);
    BitOfShiftedSum(lo, hi, s, b - m);
    assert Bit(lo * Pow2(s) + hi, b - m) == Bit(hi, b - m);
    BitOfDiv(h, m, b - m);
    assert b - m + m == b;
  }

  /** Rotate on a `w`-bit value is a circular left shift: bit `b` moves to bit (b + s) mod w. */
  lemma RotationMovesBits(h: nat, s: nat, w: nat)
    requires h < Pow2(w) && 0 < s < w
    ensures Rotate(h, s, w) < Pow2(w)
    ensures forall b :: 0 <= b < w ==>
      Bit(Rotate(h, s, w), (b + s) % w) == Bit(h, b)
  {
    RotationValue(h, s, w);
    forall b | 0 <= b < w
      ensures Bit(Rotate(h, s, w), (b + s) % w) == Bit(h, b)
    {
      WrapMod(b + s, w);
      RotationBit(h, s, w, b);
    }
  }

  /** For a 28-bit half, RotateHalf rotates the bits left by `s`. */
  lemma RotateHalfRotates(h: nat, s: nat)
    requires h < Pow2(28) && 0 < s < 28
    ensures RotateHalf(h, s) < Pow2(28)
    ensures forall b :: 0 <= b < 28 ==> Bit(RotateHalf(h, s), (b + s) % 28) == Bit(h, b)
  {
    RotationMovesBits(h, s, 28);
  }

  /** The 56-bit key state after `i` rounds of rotation (des.py:21-31). */
  function RotatedKey(cd: nat, i: nat): nat
    requires i <= |LS|
  {
    if i == 0 then cd
    else
      var prev := RotatedKey(cd, i - 1);
      ShiftScheduleShape();
      Join(RotateHalf(High(prev, 28), LS[i - 1]), RotateHalf(Low(prev, 28), LS[i - 1]), 28)
  }

  /** The first `n` subkeys, in the order they are generated (des.py:32). */
  function ForwardSubkeys(cd: nat, n: nat): seq<nat>
    requires n <= |LS|
  {
    if n == 0 then [] else ForwardSubkeys(cd, n - 1) + [Permuted(RotatedKey(cd, n), PC2)]
  }

  /** `list.reverse()` (des.py:35-36). */
  function Reversed<T>(s: seq<T>): seq<T>
  {
    if |s| == 0 then [] else [s[|s| - 1]] + Reversed(s[..|s| - 1])
  }

  /**
   * What `keySchedule(key, rounds, decrypt)` returns.  Past sixteen rounds
   * the lookup `LS[i]` raises IndexError.
   */
  function KeyScheduleOf(key: nat, rounds: nat, decrypt: bool): Result<seq<nat>>
  {
    if rounds > |LS| then Err(IndexOutOfRange)
    else
      var subkeys := ForwardSubkeys(Permuted(key, PC1), rounds);
      Ok(if decrypt then Reversed(subkeys) else subkeys)
  }

  method KeySchedule(key: nat, rounds: nat, decrypt: bool) returns (r: Result<seq<nat>>)
    ensures r == KeyScheduleOf(key, rounds, decrypt)
  {
    var subkeys: seq<nat> := [];
    var k := Permute(key, PC1);
    ghost var cd := k;
    for i := 0 to rounds
      invariant i <= |LS|
      invariant k == RotatedKey(cd, i)
      invariant subkeys == ForwardSubkeys(cd, i)
    {
      if i >= |LS| {
        return Err(IndexOutOfRange);
      }
      ShiftScheduleShape();
      var shift := LS[i];
      var left := High(k, 28);
      var right := Low(k, 28);
      left := RotateHalf(left, shift);
      right := RotateHalf(right, shift);
      k := Join(left, right, 28);
      var subkey := Permute(k, PC2);
      subkeys := subkeys + [subkey];
    }
    if decrypt {
      subkeys := Reversed(subkeys);
    }
    r := Ok(subkeys);
  }

  lemma {:induction false} ReversedLength<T>(s: seq<T>)
    ensures |Reversed(s)| == |s|
  {
    if |s| > 0 {
      ReversedLength(s[..|s| - 1]);
    }
  }

  lemma {:induction false} ReversedAt<T>(s: seq<T>, i: nat)
    requires i < |s|
    ensures |Reversed(s)| == |s| && Reversed(s)[i] == s[|s| - 1 - i]
  {
    ReversedLength(s);
    if i > 0 {
      ReversedAt(s[..|s| - 1], i - 1);
    }
  }

  /** One rotation step keeps the key state within 56 bits. */
  lemma RotationStepBelow(prev: nat, s: nat)
    requires prev < Pow2(56) && 0 < s < 28
    ensures Join(RotateHalf(High(prev, 28), s), RotateHalf(Low(prev, 28), s), 28) < Pow2(56)
  {
    SplitJoins(prev, 28, 28);
    RotateHalfRotates(High(prev, 28), s);
    RotateHalfRotates(Low(prev, 28), s);
    JoinBelow(RotateHalf(High(prev, 28), s), RotateHalf(Low(prev, 28), s), 28, 28);
  }

  lemma ReversedAll<T>(s: seq<T>)
    ensures |Reversed(s)| == |s|
    ensures forall i :: 0 <= i < |s| ==> Reversed(s)[i] == s[|s| - 1 - i]
  {
    ReversedLength(s);
    forall i | 0 <= i < |s| ensures Reversed(s)[i] == s[|s| - 1 - i] {
      ReversedAt(s, i);
    }
  }

  /** The 56-bit key state stays below 2^56. */
  lemma {:induction false} RotatedKeyBelow(cd: nat, i: nat)
    requires cd < Pow2(56) && i <= |LS|
    ensures RotatedKey(cd, i) < Pow2(56)
  {
    if i > 0 {
      RotatedKeyBelow(cd, i - 1);
      ShiftScheduleShape();
      RotationStepBelow(RotatedKey(cd, i - 1), LS[i - 1]);
    }
  }

  /** The schedule fails exactly when more than sixteen rounds are asked for. */
  lemma KeyScheduleFails(key: nat, rounds: nat, decrypt: bool)
    ensures KeyScheduleOf(key, rounds, decrypt).Err? <==> rounds > 16
    ensures KeyScheduleOf(key, rounds, decrypt).Err? ==>
      KeyScheduleOf(key, rounds, decrypt).error == IndexOutOfRange
  {
    ShiftScheduleShape();
  }

  /**
   * Up to sixteen rounds the schedule has one subkey per round, each of 48
   * bits, and decryption gets the encryption subkeys in reverse order.
   */
  lemma KeyScheduleShape(key: nat, rounds: nat)
    requires rounds <= 16
    ensures KeyScheduleOf(key, rounds, false).Ok? && KeyScheduleOf(key, rounds, true).Ok?
    ensures |KeyScheduleOf(key, rounds, false).value| == rounds
    ensures forall i :: 0 <= i < rounds ==> KeyScheduleOf(key, rounds, false).value[i] < Pow2(48)
    ensures |KeyScheduleOf(key, rounds, true).value| == rounds
    ensures forall i :: 0 <= i < rounds ==>
      KeyScheduleOf(key, rounds, true).value[i] == KeyScheduleOf(key, rounds, false).value[rounds - 1 - i]
  {
    var forward := ForwardSubkeys(Permuted(key, PC1), rounds);
    KeyScheduleValue(key, rounds, false);
    KeyScheduleValue(key, rounds, true);
    ForwardSubkeysShape(Permuted(key, PC1), rounds);
    ReversedAll(forward);
  }

  lemma KeyScheduleValue(key: nat, rounds: nat, decrypt: bool)
    requires rounds <= 16
    ensures |LS| == 16
    ensures KeyScheduleOf(key, rounds, decrypt) ==
      Ok(if decrypt then Reversed(ForwardSubkeys(Permuted(key, PC1), rounds))
         else ForwardSubkeys(Permuted(key, PC1), rounds))
  {
    ShiftScheduleShape();
  }

  lemma {:induction false} ForwardSubkeysShape(cd: nat, n: nat)
    requires n <= |LS|
    ensures |ForwardSubkeys(cd, n)| == n
    ensures forall i :: 0 <= i < n ==> ForwardSubkeys(cd, n)[i] < Pow2(48)
  {
    if n > 0 {
      ForwardSubkeysShape(cd, n - 1);
      Pc2Shape();
      PermutedBits(RotatedKey(cd, n), PC2);
    }
  }

  /**
   * Key bits 0, 8, ..., 56 are parity bits: PC1 never reads them, so two keys
   * that differ only there have the same schedule.
   */
  lemma ParityBitsIgnored(key1: nat, key2: nat, rounds: nat, decrypt: bool)
    requires forall b :: 0 <= b < 64 && b % 8 != 0 ==> Bit(key1, b) == Bit(key2, b)
    ensures KeyScheduleOf(key1, rounds, decrypt) == KeyScheduleOf(key2, rounds, decrypt)
  {
    Pc1Shape();
    PermutedReadsOnlyBox(key1, key2, PC1);
  }

  /*** desRound (des.py:42-66) ***/

  /**
   * Where a 6-bit group is looked up in its S-box: the outer bits 5 and 0
   * give the row, the middle bits 4..1 the column (des.py:58-59).
   */
  function SBoxIndex(bits: nat): (i: nat)
    requires bits < 64
    ensures i < 64
  {
    SBoxIndexBound(bits);
    (2 * High(bits, 5) + Low(bits, 1)) * 16 + High(Low(bits, 5), 1)
  }

  lemma SBoxIndexBound(bits: nat)
    requires bits < 64
    ensures High(bits, 5) < 2 && Low(bits, 1) < 2 && High(Low(bits, 5), 1) < 16
  {
    Pow2Values();
    assert Pow2(5) == 32 && Pow2(6) == 64;
    SplitJoins(bits, 5, 1);
    SplitJoins(Low(bits, 5), 1, 4);
  }

  /** The S-box output for the `j`-th 6-bit group of `x`, most significant first (des.py:57-60). */
  function SBoxLookup(x: nat, j: nat): nat
    requires j < 8
  {
    SBoxesShape();
    SBoxes[j][SBoxIndex(Low(High(x, 6 * (7 - j)), 6))]
  }

  /** `temp` after the first `n` S-boxes (des.py:56-60). */
  function SBoxStage(x: nat, n: nat): nat
    requires n <= 8
  {
    if n == 0 then 0 else Join(SBoxStage(x, n - 1), SBoxLookup(x, n - 1), 4)
  }

  /** The cipher function f on the right half `r` (des.py:53-63). */
  function CipherF(r: nat, subkey: nat): nat
  {
    Permuted(SBoxStage(Xor(Permuted(r, E), subkey), 8), P)
  }

  /** What `desRound(text, subkey)` returns. */
  function RoundOf(text: nat, subkey: nat): nat
  {
    Join(Low(text, 32), Xor(CipherF(Low(text, 32), subkey), High(text, 32)), 32)
  }

  /** `((x & 0xffffffff) << 32) | (x >> 32)`: exchange the two 32-bit halves (des.py:83). */
  function Swap(x: nat): nat
  {
    Join(Low(x, 32), High(x, 32), 32)
  }

  method DesRound(text: nat, subkey: nat) returns (result: nat)
    ensures result == RoundOf(text, subkey)
  {
    var temp := 0;
    var sBoxes := [S1, S2, S3, S4, S5, S6, S7, S8];
    SBoxesShape();
    var newL := Low(text, 32);
    var newR := Permute(newL, E);
    newR := Xor(newR, subkey);
    for j := 0 to 8
      invariant temp == SBoxStage(newR, j)
    {
      var bits := Low(High(newR, 6 * (7 - j)), 6);
      temp := Join(temp, sBoxes[j][SBoxIndex(bits)], 4);
    }
    var permuted := Permute(temp, P);
    newR := Xor(permuted, High(text, 32));
    result := Join(newL, newR, 32);
  }

  lemma CipherFBelow(r: nat, subkey: nat)
    ensures CipherF(r, subkey) < Pow2(32)
  {
    PIsPermutation();
    PermutedBits(SBoxStage(Xor(Permuted(r, E), subkey), 8), P);
  }

  /**
   * A round of a 64-bit block gives a 64-bit block whose high half is the
   * old low half and whose low half is the old high half XOR f(old low half).
   */
  lemma RoundHalves(text: nat, subkey: nat)
    requires text < Pow2(64)
    ensures RoundOf(text, subkey) < Pow2(64)
    ensures High(RoundOf(text, subkey), 32) == Low(text, 32)
    ensures Low(RoundOf(text, subkey), 32) == Xor(CipherF(Low(text, 32), subkey), High(text, 32))
  {
    var hi, lo := High(text, 32), Low(text, 32);
    SplitJoins(text, 32, 32);
    CipherFBelow(lo, subkey);
    XorBelow(CipherF(lo, subkey), hi, 32);
    JoinSplits(lo, Xor(CipherF(lo, subkey), hi), 32);
    JoinBelow(lo, Xor(CipherF(lo, subkey), hi), 32, 32);
  }

  /** Swap exchanges the halves of a 64-bit block and is its own inverse. */
  lemma SwapHalves(x: nat)
    requires x < Pow2(64)
    ensures Swap(x) < Pow2(64)
    ensures High(Swap(x), 32) == Low(x, 32) && Low(Swap(x), 32) == High(x, 32)
    ensures Swap(Swap(x)) == x
  {
    SplitJoins(x, 32, 32);
    JoinSplits(Low(x, 32), High(x, 32), 32);
    JoinBelow(Low(x, 32), High(x, 32), 32, 32);
  }

  /** The Feistel round is undone by swap, the same round, swap. */
  lemma FeistelInverse(x: nat, subkey: nat)
    requires x < Pow2(64)
    ensures Swap(RoundOf(Swap(RoundOf(x, subkey)), subkey)) == x
  {
    var hi, lo := High(x, 32), Low(x, 32);
    var f := CipherF(lo, subkey);
    var y := RoundOf(x, subkey);
    RoundHalves(x, subkey);
    SwapHalves(y);
    var z := Swap(y);
    assert High(z, 32) == Xor(f, hi) && Low(z, 32) == lo;
    RoundHalves(z, subkey);
    var w := RoundOf(z, subkey);
    XorCancel(f, hi);
    assert High(w, 32) == lo;
    assert Low(w, 32) == hi;
    SwapHalves(w);
    SplitJoins(x, 32, 32);
  }

  /*** des (des.py:71-84) ***/

  /** The block after the rounds driven by `subkeys`, in order (des.py:79-80). */
  function Rounds(x: nat, subkeys: seq<nat>): nat
  {
    if |subkeys| == 0 then x
    else RoundOf(Rounds(x, subkeys[..|subkeys| - 1]), subkeys[|subkeys| - 1])
  }

  /** What `des(plaintext, key, rounds, decrypt)` returns. */
  function DesOf(plaintext: nat, key: nat, rounds: nat, decrypt: bool): Result<nat>
  {
    match KeyScheduleOf(key, rounds, decrypt)
    case Err(e) => Err(e)
    case Ok(subkeys) => Ok(Permuted(Swap(Rounds(Permuted(plaintext, IP), subkeys)), OIP))
  }

  method Run(plaintext: nat, key: nat, rounds: nat, decrypt: bool) returns (r: Result<nat>)
    ensures r == DesOf(plaintext, key, rounds, decrypt)
  {
    var schedule := KeySchedule(key, rounds, decrypt);
    if schedule.Err? {
      return Err(schedule.error);
    }
    var subkeys := schedule.value;
    ScheduleLength(key, rounds, decrypt);
    var ciphertext := Permute(plaintext, IP);
    ghost var start := ciphertext;
    for i := 0 to rounds
      invariant ciphertext == Rounds(start, subkeys[..i])
    {
      RoundsPrefix(start, subkeys, i);
      ciphertext := DesRound(ciphertext, subkeys[i]);
    }
    assert subkeys[..rounds] == subkeys;
    ciphertext := Join(Low(ciphertext, 32), High(ciphertext, 32), 32);
    var result := Permute(ciphertext, OIP);
    r := Ok(result);
  }

  lemma RoundsPrefix(x: nat, subkeys: seq<nat>, i: nat)
    requires i < |subkeys|
    ensures Rounds(x, subkeys[..i + 1]) == RoundOf(Rounds(x, subkeys[..i]), subkeys[i])
  {
    assert subkeys[..i + 1][..i] == subkeys[..i];
  }

  lemma ScheduleLength(key: nat, rounds: nat, decrypt: bool)
    requires KeyScheduleOf(key, rounds, decrypt).Ok?
    ensures |KeyScheduleOf(key, rounds, decrypt).value| == rounds
  {
    var forward := ForwardSubkeys(Permuted(key, PC1), rounds);
    ForwardSubkeysShape(Permuted(key, PC1), rounds);
    ReversedLength(forward);
  }

  /** Running the rounds for `a + b` is running those for `a` and then those for `b`. */
  lemma {:induction false} RoundsAppend(x: nat, a: seq<nat>, b: seq<nat>)
    ensures Rounds(x, a + b) == Rounds(Rounds(x, a), b)
  {
    if |b| == 0 {
      assert a + b == a;
    } else {
      assert (a + b)[..|a + b| - 1] == a + b[..|b| - 1];
      RoundsAppend(x, a, b[..|b| - 1]);
    }
  }

  lemma {:induction false} RoundsBelow(x: nat, subkeys: seq<nat>)
    requires x < Pow2(64)
    ensures Rounds(x, subkeys) < Pow2(64)
  {
    if |subkeys| > 0 {
      RoundsBelow(x, subkeys[..|subkeys| - 1]);
      RoundHalves(Rounds(x, subkeys[..|subkeys| - 1]), subkeys[|subkeys| - 1]);
    }
  }

  /**
   * The Feistel network run with the subkeys in reverse order, between two
   * half swaps, undoes the network run with them in order.
   */
  lemma {:induction false} RoundsReversedUndo(x: nat, subkeys: seq<nat>)
    requires x < Pow2(64)
    ensures Swap(Rounds(Swap(Rounds(x, subkeys)), Reversed(subkeys))) == x
  {
    if |subkeys| == 0 {
      SwapHalves(x);
    } else {
      var front, k := subkeys[..|subkeys| - 1], subkeys[|subkeys| - 1];
      var y := Rounds(x, front);
      RoundsBelow(x, front);
      RoundHalves(y, k);
      SwapHalves(RoundOf(y, k));
      var back := RoundOf(Swap(RoundOf(y, k)), k);
      RoundHalves(Swap(RoundOf(y, k)), k);
      FeistelInverse(y, k);
      SwapHalves(back);
      assert back == Swap(y);
      RoundsAppend(Swap(RoundOf(y, k)), [k], Reversed(front));
      assert Rounds(Swap(RoundOf(y, k)), [k]) == back by {
        assert [k][..0] == [];
      }
      RoundsReversedUndo(x, front);
    }
  }

  /**
   * Decryption inverts encryption: for every 64-bit block and key and every
   * round count up to sixteen, `des(des(p, key, r), key, r, decrypt=True)`
   * is `p`.
   */
  lemma DesRoundTrip(plaintext: nat, key: nat, rounds: nat)
    requires plaintext < Pow2(64) && rounds <= 16
    ensures DesOf(plaintext, key, rounds, false).Ok?
    ensures DesOf(DesOf(plaintext, key, rounds, false).value, key, rounds, true) == Ok(plaintext)
  {
    KeyScheduleShape(key, rounds);
    ShiftScheduleShape();
    var subkeys := ForwardSubkeys(Permuted(key, PC1), rounds);
    InitialPermutationsInverse();
    var x := Permuted(plaintext, IP);
    PermutedBits(plaintext, IP);
    RoundsBelow(x, subkeys);
    var y := Swap(Rounds(x, subkeys));
    SwapHalves(Rounds(x, subkeys));
    var c := Permuted(y, OIP);
    InitialPermutationRoundTrip(y);
    assert Permuted(c, IP) == y;
    RoundsReversedUndo(x, subkeys);
    InitialPermutationRoundTrip(plaintext);
  }

  /** The default round count of `des`. */
  const DefaultRounds: nat := 16

  /** `des(plaintext, key)` with the defaults rounds = 16 and decrypt = False. */
  function DesEncrypt(plaintext: nat, key: nat): Result<nat>
  {
    DesOf(plaintext, key, DefaultRounds, false)
  }

  /** Whatever `des` returns is a 64-bit block: the last step gathers 64 bits through oIP. */
  lemma DesBelow(plaintext: nat, key: nat, rounds: nat, decrypt: bool)
    ensures DesOf(plaintext, key, rounds, decrypt).Ok? ==> DesOf(plaintext, key, rounds, decrypt).value < Pow2(64)
  {
    if KeyScheduleOf(key, rounds, decrypt).Ok? {
      var subkeys := KeyScheduleOf(key, rounds, decrypt).value;
      PermutedBits(Swap(Rounds(Permuted(plaintext, IP), subkeys)), OIP);
      InitialPermutationsInverse();
    }
  }

  /**
   * Full sixteen-round DES: encrypting a 64-bit block never fails and gives a
   * 64-bit block, and `des(c, key, decrypt=True)` gives the plaintext back.
   */
  lemma DesEncryptRoundTrip(plaintext: nat, key: nat)
    requires plaintext < Pow2(64)
    ensures DesEncrypt(plaintext, key).Ok? && DesEncrypt(plaintext, key).value < Pow2(64)
    ensures DesOf(DesEncrypt(plaintext, key).value, key, DefaultRounds, true) == Ok(plaintext)
  {
    DesRoundTrip(plaintext, key, DefaultRounds);
    DesBelow(plaintext, key, DefaultRounds, false);
  }
}
