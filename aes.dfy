/**
 * The AES round steps of aes.py.  Each works in place on the caller's list,
 * which holds a 4x4 block of bytes column by column (aes.py:10-13); the list
 * is the field `items` of a Block.  The code assumes (aes.py:5-7) that the
 * block occupies the first sixteen entries and that the tables are those of
 * app.py, so the methods require a list of at least sixteen entries and
 * tables of the right length.
 */
module Aes {
  import opened Bits
  import opened Permutations
  import opened AesTables

  /*** SubBytes (aes.py:24-34) ***/

  /** Number of binary digits of `x` (0 has none). */
  function BitLength(x: nat): nat
  {
    if x == 0 then 0 else 1 + BitLength(x / 2)
  }

  /** The `n` binary digits of `x`, most significant first. */
  function Digits(x: nat, n: nat): (d: seq<nat>)
    ensures |d| == n
  {
    seq(n, k requires 0 <= k < n => Bit(x, n - 1 - k))
  }

  /**
   * `[int(bit) for bit in format(x, '08b')]`: the binary digits of `x`, padded
   * with zeros to at least eight.
   */
  function ByteDigits(x: nat): (d: seq<nat>)
    ensures |d| >= 8
  {
    Digits(x, if BitLength(x) > 8 then BitLength(x) else 8)
  }

  /** `text[i]` after `k` steps of the innermost loop for output bit `j` (aes.py:33-34). */
  function RowFold(t: nat, matrix: seq<nat>, byte: seq<nat>, j: nat, k: nat): nat
    requires |matrix| == 64 && |byte| >= 8 && j < 8 && k <= 8
  {
    if k == 0 then t
    else Xor(RowFold(t, matrix, byte, j, k - 1), matrix[8 * j + k - 1] * byte[k - 1])
  }

  /** `text[i]` after `j` steps of the loop at aes.py:31-34. */
  function AffineFold(matrix: seq<nat>, vec: seq<nat>, byte: seq<nat>, j: nat): nat
    requires |matrix| == 64 && |vec| == 8 && |byte| >= 8 && j <= 8
  {
    if j == 0 then 0
    else RowFold(Xor(Shl(AffineFold(matrix, vec, byte, j - 1), 1), vec[j - 1]), matrix, byte, j - 1, 8)
  }

  /** The value SubBytes writes in place of the entry `x`. */
  function SubByte(x: nat, matrix: seq<nat>, vec: seq<nat>): nat
    requires |matrix| == 64 && |vec| == 8
  {
    AffineFold(matrix, vec, ByteDigits(x), 8)
  }

  /** The whole list after SubBytes: the first sixteen entries substituted. */
  function SubBytesOf(t: seq<nat>, matrix: seq<nat>, vec: seq<nat>): (r: seq<nat>)
    requires |matrix| == 64 && |vec| == 8
    ensures |r| == |t|
  {
    seq(|t|, i requires 0 <= i < |t| => if i < 16 then SubByte(t[i], matrix, vec) else t[i])
  }

  /*** ShiftRows (aes.py:42-45) ***/

  /** The sixteen entries `text[matrix[i]]` that ShiftRows appends. */
  function Gathered(t: seq<nat>, matrix: seq<nat>): (r: seq<nat>)
    requires |matrix| == 16 && AllBelow(matrix, 16) && |t| >= 16
    ensures |r| == 16
  {
    seq(16, i requires 0 <= i < 16 => t[matrix[i]])
  }

  /*** MixColumns (aes.py:54-74) ***/

  /** The while loop at aes.py:68-71: XOR in `modulus << b` for every set bit `b` of `overflow`. */
  function Reduce(acc: nat, overflow: nat, modulus: nat): nat
    decreases overflow
  {
    if overflow == 0 then acc
    else
      assert High(overflow, 1) < overflow by { Pow2Small(); }
      Reduce(Xor(acc, Low(overflow, 1) * modulus), High(overflow, 1), Shl(modulus, 1))
  }

  /**
   * What one product `temp` contributes to an output byte (aes.py:63-71):
   * its low byte, then 27 << b for every bit b above the low byte.
   */
  function Reduced(temp: nat): nat
  {
    Reduce(Low(temp, 8), High(temp, 8), 27)
  }

  /** The integer product `matrix[..] * text[..]` at aes.py:62, before it is folded. */
  function Product(a: nat, b: nat): nat
  {
    a * b
  }

  /** Entry `j` of matrix row `i % 4`, which output entry `i` multiplies with (aes.py:62). */
  function MatrixIndex(i: nat, j: nat): (k: nat)
    requires i < 16 && j < 4
    ensures k < 16
  {
    4 * (i % 4) + j
  }

  /** Entry `j` of block column `i / 4`: `4*int(i/4) + j` at aes.py:62. */
  function TextIndex(i: nat, j: nat): (k: nat)
    requires i < 16 && j < 4
    ensures k < 16
  {
    4 * (i / 4) + j
  }

  /** XOR of the contributions of the first `j` products to output entry `i` (aes.py:60-71). */
  function MixEntry(t: seq<nat>, matrix: seq<nat>, i: nat, j: nat): nat
    requires |t| >= 16 && |matrix| == 16 && i < 16 && j <= 4
  {
    if j == 0 then 0
    else Xor(MixEntry(t, matrix, i, j - 1), Reduced(Product(matrix[MatrixIndex(i, j - 1)], t[TextIndex(i, j - 1)])))
  }

  /** One unfolding of MixEntry. */
  lemma MixEntryStep(t: seq<nat>, matrix: seq<nat>, i: nat, j: nat)
    requires |t| >= 16 && |matrix| == 16 && i < 16 && j < 4
    ensures MixEntry(t, matrix, i, j + 1) ==
      Xor(MixEntry(t, matrix, i, j), Reduced(Product(matrix[MatrixIndex(i, j)], t[TextIndex(i, j)])))
  {
  }

  /**
   * The whole list after MixColumns: sixteen zeros appended, then entry
   * 16 + i XORed with MixEntry for i in 0..15.
   */
  function MixColumnsOf(t: seq<nat>, matrix: seq<nat>): (r: seq<nat>)
    requires |t| >= 16 && |matrix| == 16
    ensures |r| == |t| + 16
  {
    seq(|t| + 16, k requires 0 <= k < |t| + 16 => AppendedEntry(t, matrix, k))
  }

  /** Entry `k` of the block after the sixteen zeros are appended and mixed. */
  function AppendedEntry(t: seq<nat>, matrix: seq<nat>, k: nat): nat
    requires |t| >= 16 && |matrix| == 16 && k < |t| + 16
  {
    var z := if k < |t| then t[k] else 0;
    if 16 <= k < 32 then Xor(z, MixEntry(t, matrix, k - 16, 4)) else z
  }

  /*** AddRoundKey (aes.py:79-81) ***/

  function AddedKey(t: seq<nat>, key: seq<nat>): (r: seq<nat>)
    requires |t| >= 16 && |key| >= 16
    ensures |r| == |t|
  {
    seq(|t|, i requires 0 <= i < |t| => if i < 16 then Xor(t[i], key[i]) else t[i])
  }

  /** The caller's list, which every step updates in place. */
  class Block {
    var items: seq<nat>

    constructor (text: seq<nat>)
      ensures items == text
    {
      items := text;
    }

    method SubBytes(matrix: seq<nat>, vec: seq<nat>)
      requires |items| >= 16 && |matrix| == 64 && |vec| == 8
      modifies this
      ensures items == SubBytesOf(old(items), matrix, vec)
    {
      for i := 0 to 16
        invariant |items| == |old(items)|
        invariant forall n :: 0 <= n < |items| ==>
          items[n] == if n < i then SubByte(old(items)[n], matrix, vec) else old(items)[n]
      {
        var byte := ByteDigits(items[i]);
        var value := 0;
        for j := 0 to 8
          invariant value == AffineFold(matrix, vec, byte, j)
        {
          value := Xor(Shl(value, 1), vec[j]);
          ghost var start := value;
          for k := 0 to 8
            invariant value == RowFold(start, matrix, byte, j, k)
          {
            value := Xor(value, matrix[8 * j + k] * byte[k]);
          }
        }
        items := items[i := value];
      }
    }

    /**
     * As written: the gathered block is appended and the slice at aes.py:45
     * only rebinds the local name, so the caller keeps the old block in front.
     */
    method ShiftRows(matrix: seq<nat>)
      requires |items| >= 16 && |matrix| == 16 && AllBelow(matrix, 16)
      modifies this
      ensures items == old(items) + Gathered(old(items), matrix)
    {
      ghost var start := items;
      for i := 0 to 16
        invariant items == start + Gathered(start, matrix)[..i]
      {
        assert items[matrix[i]] == start[matrix[i]];
        items := items + [items[matrix[i]]];
        assert Gathered(start, matrix)[..i + 1] == Gathered(start, matrix)[..i] + [start[matrix[i]]];
      }
    }

    /**
     * As written: sixteen zeros are appended, each is XORed with the new
     * column entry, and the slice at aes.py:74 only rebinds the local name.
     */
    method MixColumns(matrix: seq<nat>)
      requires |items| >= 16 && |matrix| == 16
      modifies this
      ensures items == MixColumnsOf(old(items), matrix)
    {
      ghost var start := items;
      AppendZeros();
      ghost var z := items;
      for i := 0 to 16
        invariant |items| == |z| && items[..16] == start[..16]
        invariant forall k :: 0 <= k < |items| ==>
          items[k] == if 16 <= k < 16 + i then AppendedEntry(start, matrix, k) else z[k]
      {
        MixEntryReadsBlock(items, start, matrix, i, 4);
        MixOne(matrix, i);
      }
      assert forall k :: 0 <= k < |items| ==> items[k] == AppendedEntry(start, matrix, k);
    }

    /** The loop at aes.py:56-57: sixteen zeros are appended. */
    method AppendZeros()
      modifies this
      ensures items == old(items) + seq(16, _ => 0)
    {
      ghost var start := items;
      for i := 0 to 16
        invariant items == start + seq(i, _ => 0)
      {
        items := items + [0];
      }
    }

    /** One iteration of the loop at aes.py:59-71: output entry 16 + i. */
    method MixOne(matrix: seq<nat>, i: nat)
      requires |items| >= 32 && |matrix| == 16 && i < 16
      modifies this
      ensures items == old(items)[16 + i := Xor(old(items)[16 + i], MixEntry(old(items), matrix, i, 4))]
    {
      ghost var start := items;
      for j := 0 to 4
        invariant |items| == |start| && items[..16] == start[..16]
        invariant items == start[16 + i := Xor(start[16 + i], MixEntry(start, matrix, i, j))]
      {
        var temp := Product(matrix[MatrixIndex(i, j)], items[TextIndex(i, j)]);
        assert items[TextIndex(i, j)] == start[TextIndex(i, j)];
        MixEntryStep(start, matrix, i, j);
        XorAssoc(start[16 + i], MixEntry(start, matrix, i, j), Reduced(temp));
        XorInProduct(16 + i, temp);
      }
    }

    /** `text[k] ^= temp & 0xff` and the reduction loop after it (aes.py:63-71). */
    method XorInProduct(k: nat, temp: nat)
      requires k < |items|
      modifies this
      ensures items == old(items)[k := Xor(old(items)[k], Reduced(temp))]
    {
      ReduceXor(items[k], Low(temp, 8), High(temp, 8), 27);
      ghost var goal := Xor(items[k], Reduced(temp));
      ghost var start := items;
      items := items[k := Xor(items[k], Low(temp, 8))];
      var overflow := High(temp, 8);
      var modulus := 27;
      while overflow != 0
        invariant |items| == |start|
        invariant Reduce(items[k], overflow, modulus) == goal
        invariant items == start[k := items[k]]
        decreases overflow
      {
        Pow2Small();
        ReduceStep(items[k], overflow, modulus);
        items := items[k := Xor(items[k], Product(Low(overflow, 1), modulus))];
        modulus := Shl(modulus, 1);
        overflow := High(overflow, 1);
      }
      assert items == start[k := goal];
    }

    /**
     * ShiftRows as the comment at aes.py:37-41 intends: the caller's block
     * itself becomes the gathered block.
     */
    method ShiftRowsInPlace(matrix: seq<nat>)
      requires |items| == 16 && |matrix| == 16 && AllBelow(matrix, 16)
      modifies this
      ensures items == Gathered(old(items), matrix)
    {
      ShiftRows(matrix);
      items := items[16..];
    }

    /**
     * MixColumns as the comment at aes.py:73 intends: the caller's block
     * itself becomes the new block.
     */
    method MixColumnsInPlace(matrix: seq<nat>)
      requires |items| == 16 && |matrix| == 16
      modifies this
      ensures |items| == 16
      ensures forall i :: 0 <= i < 16 ==> items[i] == MixEntry(old(items), matrix, i, 4)
    {
      MixColumns(matrix);
      ghost var appended := items;
      items := items[16..];
      forall i | 0 <= i < 16 ensures items[i] == MixEntry(old(items), matrix, i, 4) {
        assert items[i] == appended[16 + i] == Xor(0, MixEntry(old(items), matrix, i, 4));
      }
    }

    /**
     * MixColumns as the comments at aes.py:48-53 and aes.py:73 intend: the
     * block itself becomes the matrix product over GF(2^8).
     */
    method MixColumnsGf(matrix: seq<nat>)
      requires |items| == 16 && (forall n :: 0 <= n < 16 ==> items[n] < 256) && |matrix| == 16
      modifies this
      ensures |items| == 16
      ensures forall i :: 0 <= i < 16 ==> items[i] == MixEntryGf(old(items), matrix, i, 4)
    {
      var mixed: seq<nat> := [];
      for i := 0 to 16
        invariant |mixed| == i
        invariant forall n :: 0 <= n < i ==> mixed[n] == MixEntryGf(items, matrix, n, 4)
      {
        var entry := 0;
        for j := 0 to 4
          invariant entry == MixEntryGf(items, matrix, i, j)
        {
          entry := Xor(entry, GfMul(matrix[MatrixIndex(i, j)], items[TextIndex(i, j)]));
        }
        mixed := mixed + [entry];
      }
      items := mixed;
    }

    method AddRoundKey(key: seq<nat>)
      requires |items| >= 16 && |key| >= 16
      modifies this
      ensures items == AddedKey(old(items), key)
    {
      for i := 0 to 16
        invariant |items| == |old(items)|
        invariant forall n :: 0 <= n < |items| ==>
          items[n] == if n < i then Xor(old(items)[n], key[n]) else old(items)[n]
      {
        items := items[i := Xor(items[i], key[i])];
      }
    }
  }

  /** One pass of the reduction loop. */
  lemma ReduceStep(acc: nat, overflow: nat, modulus: nat)
    requires overflow != 0
    ensures Reduce(acc, overflow, modulus) == Reduce(Xor(acc, Product(Low(overflow, 1), modulus)), High(overflow, 1), Shl(modulus, 1))
  {
  }

  /** XORing a constant into the accumulator commutes with the reduction loop. */
  lemma {:induction false} ReduceXor(a: nat, b: nat, overflow: nat, modulus: nat)
    ensures Reduce(Xor(a, b), overflow, modulus) == Xor(a, Reduce(b, overflow, modulus))
    decreases overflow
  {
    if overflow != 0 {
      Pow2Small();
      var d := Low(overflow, 1) * modulus;
      XorAssoc(a, b, d);
      ReduceXor(a, Xor(b, d), High(overflow, 1), Shl(modulus, 1));
    }
  }

  /** MixEntry reads only the block in the first sixteen entries. */
  lemma {:induction false} MixEntryReadsBlock(a: seq<nat>, b: seq<nat>, matrix: seq<nat>, i: nat, j: nat)
    requires |a| >= 16 && |b| >= 16 && a[..16] == b[..16] && |matrix| == 16 && i < 16 && j <= 4
    ensures MixEntry(a, matrix, i, j) == MixEntry(b, matrix, i, j)
  {
    if j > 0 {
      MixEntryReadsBlock(a, b, matrix, i, j - 1);
      assert a[TextIndex(i, j - 1)] == a[..16][TextIndex(i, j - 1)];
    }
  }

  /*** SubBytes as the affine map of AesTables ***/

  function Digit(b: bool): nat
  {
    if b then 1 else 0
  }

  /** The eight bits of a byte, most significant first. */
  function BitsOf(x: nat): (b: seq<bool>)
    ensures |b| == 8
  {
    seq(8, k requires 0 <= k < 8 => Bit(x, 7 - k) == 1)
  }

  /** The first eight digits of a digit list as booleans. */
  function Bools(digits: seq<nat>): (b: seq<bool>)
    requires |digits| >= 8
    ensures |b| == 8
  {
    seq(8, k requires 0 <= k < 8 => digits[k] == 1)
  }

  /** The first `n` bits of `bs` as a number, most significant first. */
  function PackBits(bs: seq<bool>, n: nat): nat
    requires n <= |bs|
  {
    if n == 0 then 0 else 2 * PackBits(bs, n - 1) + Digit(bs[n - 1])
  }

  /** Parity of the first `k` products of row `j` of `m` with `b`. */
  function Parity(m: seq<nat>, j: nat, b: seq<bool>, k: nat): bool
    requires |m| == 64 && j < 8 && |b| == 8 && k <= 8
  {
    if k == 0 then false else Parity(m, j, b, k - 1) != (m[8 * j + k - 1] == 1 && b[k - 1])
  }

  lemma DotIsParity(m: seq<nat>, j: nat, b: seq<bool>)
    requires |m| == 64 && j < 8 && |b| == 8
    ensures Dot(m, j, b) == Parity(m, j, b, 8)
  {
    assert Parity(m, j, b, 1) == (m[8 * j] == 1 && b[0]);
    assert Parity(m, j, b, 2) == (Parity(m, j, b, 1) != (m[8 * j + 1] == 1 && b[1]));
    assert Parity(m, j, b, 3) == (Parity(m, j, b, 2) != (m[8 * j + 2] == 1 && b[2]));
    assert Parity(m, j, b, 4) == (Parity(m, j, b, 3) != (m[8 * j + 3] == 1 && b[3]));
    assert Parity(m, j, b, 5) == (Parity(m, j, b, 4) != (m[8 * j + 4] == 1 && b[4]));
    assert Parity(m, j, b, 6) == (Parity(m, j, b, 5) != (m[8 * j + 5] == 1 && b[5]));
    assert Parity(m, j, b, 7) == (Parity(m, j, b, 6) != (m[8 * j + 6] == 1 && b[6]));
  }

  lemma AffineAt(m: seq<nat>, c: seq<nat>, b: seq<bool>, j: nat)
    requires |m| == 64 && |c| == 8 && |b| == 8 && j < 8
    ensures Affine(m, c, b)[j] == AffineBit(m, c, j, b)
  {
    assert j == 0 || j == 1 || j == 2 || j == 3 || j == 4 || j == 5 || j == 6 || j == 7;
  }

  /** XOR of a bit into `2t + e` only touches the last bit. */
  lemma XorLowBit(t: nat, e: nat, d: nat)
    requires e <= 1 && d <= 1
    ensures Xor(2 * t + e, d) == 2 * t + Digit((e == 1) != (d == 1))
  {
    if d == 1 && 2 * t + e != 0 {
      assert (2 * t + e) / 2 == t && (2 * t + e) % 2 == e;
    }
  }

  /** `(t << 1) ^ d` for a bit `d` appends `d`. */
  lemma ShiftInBit(t: nat, d: nat)
    requires d <= 1
    ensures Xor(Shl(t, 1), d) == 2 * t + d
  {
    Pow2Small();
    assert Shl(t, 1) == 2 * t + 0;
    XorLowBit(t, 0, d);
  }

  /** With bit tables, the inner loop XORs the row parity into the last bit. */
  lemma {:induction false} RowFoldParity(t: nat, e: nat, m: seq<nat>, byte: seq<nat>, j: nat, k: nat)
    requires |m| == 64 && AllBelow(m, 2) && |byte| >= 8 && j < 8 && k <= 8 && e <= 1
    requires forall n :: 0 <= n < 8 ==> byte[n] <= 1
    ensures RowFold(2 * t + e, m, byte, j, k) == 2 * t + Digit((e == 1) != Parity(m, j, Bools(byte), k))
  {
    if k > 0 {
      RowFoldParity(t, e, m, byte, j, k - 1);
      var p := (e == 1) != Parity(m, j, Bools(byte), k - 1);
      var d := m[8 * j + k - 1] * byte[k - 1];
      assert m[8 * j + k - 1] < 2;
      assert d <= 1 && (d == 1 <==> (m[8 * j + k - 1] == 1 && Bools(byte)[k - 1]));
      XorLowBit(t, Digit(p), d);
    }
  }

  /** With bit tables, the first `j` output bits are the first `j` bits of the affine map. */
  lemma {:induction false} AffineFoldPacks(m: seq<nat>, c: seq<nat>, byte: seq<nat>, j: nat)
    requires |m| == 64 && AllBelow(m, 2) && |c| == 8 && AllBelow(c, 2) && |byte| >= 8 && j <= 8
    requires forall n :: 0 <= n < 8 ==> byte[n] <= 1
    ensures AffineFold(m, c, byte, j) == PackBits(Affine(m, c, Bools(byte)), j)
  {
    if j > 0 {
      AffineFoldPacks(m, c, byte, j - 1);
      var b := Bools(byte);
      var p := Parity(m, j - 1, b, 8);
      AffineFoldBit(m, c, byte, j);
      DotIsParity(m, j - 1, b);
      AffineAt(m, c, b, j - 1);
      assert Affine(m, c, b)[j - 1] == ((c[j - 1] == 1) != p);
    }
  }

  /** One more row of the fold shifts the value left and brings in one affine bit as a parity. */
  lemma AffineFoldBit(m: seq<nat>, c: seq<nat>, byte: seq<nat>, j: nat)
    requires |m| == 64 && AllBelow(m, 2) && |c| == 8 && AllBelow(c, 2) && |byte| >= 8 && 0 < j <= 8
    requires forall n :: 0 <= n < 8 ==> byte[n] <= 1
    ensures AffineFold(m, c, byte, j) ==
      2 * AffineFold(m, c, byte, j - 1) + Digit((c[j - 1] == 1) != Parity(m, j - 1, Bools(byte), 8))
  {
    var a := AffineFold(m, c, byte, j - 1);
    var e := c[j - 1];
    assert e < 2;
    ShiftInBit(a, e);
    AffineFoldStep(m, c, byte, j);
    RowFoldParity(a, e, m, byte, j - 1, 8);
  }

  /** One unfolding of AffineFold. */
  lemma AffineFoldStep(m: seq<nat>, c: seq<nat>, byte: seq<nat>, j: nat)
    requires |m| == 64 && |c| == 8 && |byte| >= 8 && 0 < j <= 8
    ensures AffineFold(m, c, byte, j) == RowFold(Xor(Shl(AffineFold(m, c, byte, j - 1), 1), c[j - 1]), m, byte, j - 1, 8)
  {
  }

  /** Bit n-1-k of PackBits(bs, n) is bs[k]. */
  lemma {:induction false} PackBitsBits(bs: seq<bool>, n: nat)
    requires n <= |bs|
    ensures PackBits(bs, n) < Pow2(n)
    ensures forall k :: 0 <= k < n ==> Bit(PackBits(bs, n), n - 1 - k) == Digit(bs[k])
  {
    if n > 0 {
      PackBitsBits(bs, n - 1);
      var prev := PackBits(bs, n - 1);
      Pow2Small();
      assert PackBits(bs, n) == prev * Pow2(1) + Digit(bs[n - 1]);
      forall k | 0 <= k < n ensures Bit(PackBits(bs, n), n - 1 - k) == Digit(bs[k]) {
        BitOfShiftedSum(prev, Digit(bs[n - 1]), 1, n - 1 - k);
        if k == n - 1 {
          BitZero(Digit(bs[n - 1]));
        }
      }
    }
  }

  lemma BitLengthBelow(x: nat, n: nat)
    requires x < Pow2(n)
    ensures BitLength(x) <= n
  {
    if x > 0 {
      BitLengthBelow(x / 2, n - 1);
    }
  }

  /** For a byte, `format(x, '08b')` gives exactly its eight bits. */
  lemma ByteDigitsOfByte(x: nat)
    requires x < 256
    ensures ByteDigits(x) == Digits(x, 8)
    ensures forall k :: 0 <= k < 8 ==> ByteDigits(x)[k] <= 1
    ensures Bools(ByteDigits(x)) == BitsOf(x)
  {
    Pow2Small();
    BitLengthBelow(x, 8);
  }

  /** Packing the bits of a byte gives the byte back, and the other way round. */
  lemma PackBitsOf(x: nat, bs: seq<bool>)
    requires x < 256 && |bs| == 8
    ensures PackBits(BitsOf(x), 8) == x
    ensures PackBits(bs, 8) < 256 && BitsOf(PackBits(bs, 8)) == bs
  {
    Pow2Small();
    PackBitsBits(BitsOf(x), 8);
    forall i | 0 <= i < 8 ensures Bit(PackBits(BitsOf(x), 8), i) == Bit(x, i) {
      assert Bit(PackBits(BitsOf(x), 8), 8 - 1 - (7 - i)) == Digit(BitsOf(x)[7 - i]);
    }
    BitsDetermineBelow(PackBits(BitsOf(x), 8), x, 8);
    PackBitsBits(bs, 8);
    forall k | 0 <= k < 8 ensures BitsOf(PackBits(bs, 8))[k] == bs[k] {
      assert Bit(PackBits(bs, 8), 8 - 1 - k) == Digit(bs[k]);
    }
  }

  /** With bit tables, SubBytes on a byte is the affine map on its bits. */
  lemma SubByteIsAffine(x: nat, m: seq<nat>, c: seq<nat>)
    requires x < 256 && |m| == 64 && AllBelow(m, 2) && |c| == 8 && AllBelow(c, 2)
    ensures SubByte(x, m, c) == PackBits(Affine(m, c, BitsOf(x)), 8)
  {
    ByteDigitsOfByte(x);
    AffineFoldPacks(m, c, ByteDigits(x), 8);
  }

  /**
   * For a byte and bit tables, SubBytes writes a byte whose bit 7-j is vec[j]
   * XOR the parity of row j of the matrix AND the input bits, read most
   * significant first.
   */
  lemma SubByteBits(x: nat, m: seq<nat>, c: seq<nat>)
    requires x < 256 && |m| == 64 && AllBelow(m, 2) && |c| == 8 && AllBelow(c, 2)
    ensures SubByte(x, m, c) < 256
    ensures forall j :: 0 <= j < 8 ==>
      Bit(SubByte(x, m, c), 7 - j) == Digit((c[j] == 1) != Parity(m, j, BitsOf(x), 8))
  {
    SubByteIsAffine(x, m, c);
    var bs := Affine(m, c, BitsOf(x));
    PackBitsBits(bs, 8);
    PackBitsOf(x, bs);
    forall j | 0 <= j < 8
      ensures Bit(SubByte(x, m, c), 7 - j) == Digit((c[j] == 1) != Parity(m, j, BitsOf(x), 8))
    {
      AffineAt(m, c, BitsOf(x), j);
      DotIsParity(m, j, BitsOf(x));
    }
  }

  /**
   * SubBytes with (OS, OSC) undoes SubBytes with (S, SC) on every byte, and
   * the other way round.
   */
  lemma SubByteInverse(x: nat)
    requires x < 256
    ensures SubByte(SubByte(x, S, SC), OS, OSC) == x
    ensures SubByte(SubByte(x, OS, OSC), S, SC) == x
  {
    AffineTablesAreBits();
    AffineInverse(BitsOf(x));
    SubByteIsAffine(x, S, SC);
    SubByteIsAffine(x, OS, OSC);
    var y := SubByte(x, S, SC);
    PackBitsOf(x, Affine(S, SC, BitsOf(x)));
    SubByteIsAffine(y, OS, OSC);
    PackBitsOf(x, BitsOf(x));
    var w := SubByte(x, OS, OSC);
    PackBitsOf(x, Affine(OS, OSC, BitsOf(x)));
    SubByteIsAffine(w, S, SC);
  }

  /** SubBytes with (OS, OSC) restores a block of bytes that SubBytes with (S, SC) changed, and the other way round. */
  lemma SubBytesRestores(t: seq<nat>)
    requires |t| >= 16 && forall i :: 0 <= i < 16 ==> t[i] < 256
    ensures |S| == 64 && |SC| == 8 && |OS| == 64 && |OSC| == 8
    ensures SubBytesOf(SubBytesOf(t, S, SC), OS, OSC) == t
    ensures SubBytesOf(SubBytesOf(t, OS, OSC), S, SC) == t
  {
    AffineTablesAreBits();
    forall i | 0 <= i < 16
      ensures SubByte(SubByte(t[i], S, SC), OS, OSC) == t[i]
      ensures SubByte(SubByte(t[i], OS, OSC), S, SC) == t[i]
    {
      SubByteInverse(t[i]);
    }
  }

  /*** ShiftRows as an index map ***/

  /** Gathering by OSR undoes gathering by SR on a block, and the other way round. */
  lemma GatheredInverse(t: seq<nat>)
    requires |t| >= 16
    ensures IsPermutation(SR, 16) && IsPermutation(OSR, 16)
    ensures Gathered(Gathered(t, SR), OSR) == t[..16]
    ensures Gathered(Gathered(t, OSR), SR) == t[..16]
  {
    ShiftRowTablesInverse();
  }

  /**
   * As written, ShiftRows leaves the caller's block where it was: the first
   * sixteen entries are the old block, which differs from the shifted block
   * whenever entry 1 differs from entry 5.
   */
  lemma ShiftRowsLeavesBlock(t: seq<nat>)
    requires |t| == 16
    ensures IsPermutation(SR, 16)
    ensures (t + Gathered(t, SR))[..16] == t
    ensures t[1] != t[5] ==> (t + Gathered(t, SR))[..16] != Gathered(t, SR)
  {
    ShiftRowTablesInverse();
    assert Gathered(t, SR)[1] == t[5];
  }

  /*** MixColumns ***/

  /** `xtime` of section 4.2.1 of FIPS 197: multiplication by x in GF(2^8). */
  function Xtime(b: nat): (r: nat)
    requires b < 256
    ensures r < 256
  {
    if b < 128 then 2 * b
    else
      assert 2 * b - 256 < Pow2(8) && 27 < Pow2(8) by { Pow2Small(); }
      XorBelow(2 * b - 256, 27, 8);
      Pow2Small();
      Xor(2 * b - 256, 27)
  }

  /** A matrix entry of 1 contributes the byte itself. */
  lemma ReducedOne(b: nat)
    requires b < 256
    ensures Reduced(1 * b) == b
  {
    Pow2Small();
    DivModUnique(b, 256, 0, b);
  }

  /** A matrix entry of 2 contributes xtime of the byte, as in FIPS 197. */
  lemma ReducedTwo(b: nat)
    requires b < 256
    ensures Reduced(2 * b) == Xtime(b)
  {
    Pow2Small();
    if b < 128 {
      DivModUnique(2 * b, 256, 0, 2 * b);
    } else {
      DivModUnique(2 * b, 256, 1, 2 * b - 256);
      DivModUnique(1, 2, 0, 1);
      assert Reduced(2 * b) == Reduce(Xor(2 * b - 256, 27), 0, Shl(27, 1));
    }
  }

  /** The reduction loop keeps a byte a byte while every shifted modulus is below 256. */
  lemma {:induction false} ReduceBelow(acc: nat, overflow: nat, modulus: nat, n: nat)
    requires acc < 256 && overflow < Pow2(n) && modulus * Pow2(n) < 512
    ensures Reduce(acc, overflow, modulus) < 256
    decreases overflow
  {
    if overflow != 0 {
      ModulusStep(overflow, modulus, n);
      var d := Low(overflow, 1) * modulus;
      Pow2Small();
      XorBelow(acc, d, 8);
      ReduceBelow(Xor(acc, d), High(overflow, 1), Shl(modulus, 1), n - 1);
    }
  }

  /** One step of the reduction loop keeps the bounds of ReduceBelow. */
  lemma ModulusStep(overflow: nat, modulus: nat, n: nat)
    requires 0 < overflow < Pow2(n) && modulus * Pow2(n) < 512
    ensures n > 0 && Low(overflow, 1) * modulus < 256
    ensures High(overflow, 1) < Pow2(n - 1) && Shl(modulus, 1) * Pow2(n - 1) < 512
  {
    OverflowStep(overflow, n);
    ModulusBound(modulus, n);
    if Low(overflow, 1) == 1 {
      assert Low(overflow, 1) * modulus == modulus;
    } else {
      assert Low(overflow, 1) * modulus == 0;
    }
  }

  lemma OverflowStep(overflow: nat, n: nat)
    requires 0 < overflow < Pow2(n)
    ensures n > 0 && Low(overflow, 1) <= 1 && High(overflow, 1) < Pow2(n - 1)
  {
    Pow2Small();
    assert n > 0;
    assert Pow2(n) == Pow2(n - 1) * 2;
    QuotientBelow(overflow, 2, Pow2(n - 1));
  }

  lemma ModulusBound(modulus: nat, n: nat)
    requires n > 0 && modulus * Pow2(n) < 512
    ensures modulus < 256 && Shl(modulus, 1) * Pow2(n - 1) < 512
  {
    var half := Pow2(n - 1);
    assert Pow2(n) == 2 * half && Pow2(1) == 2;
    assert Shl(modulus, 1) * half == modulus * (2 * half);
    if modulus > 0 {
      MulStep(modulus, 1, 2 * half);
    }
  }

  /** A product of a matrix entry of at most 15 and a byte folds back into a byte. */
  lemma ReducedBelow(temp: nat)
    requires temp < 4096
    ensures Reduced(temp) < 256
  {
    Pow2Small();
    Pow2Add(8, 4);
    SplitJoins(temp, 8, 4);
    ReduceBelow(Low(temp, 8), High(temp, 8), 27, 4);
  }

  lemma ProductBelow(a: nat, b: nat)
    requires a < 16 && b < 256
    ensures a * b < 4096
  {
    if b > 0 {
      MulStep(b, a, 16);
    }
  }

  /** With block bytes and matrix entries of at most 15, every new entry is a byte. */
  lemma {:induction false} MixEntryBelow(t: seq<nat>, matrix: seq<nat>, i: nat, j: nat)
    requires |t| >= 16 && forall n :: 0 <= n < 16 ==> t[n] < 256
    requires |matrix| == 16 && AllBelow(matrix, 16) && i < 16 && j <= 4
    ensures MixEntry(t, matrix, i, j) < 256
  {
    if j > 0 {
      MixEntryBelow(t, matrix, i, j - 1);
      var a, b := matrix[MatrixIndex(i, j - 1)], t[TextIndex(i, j - 1)];
      ProductBelow(a, b);
      ReducedBelow(Product(a, b));
      assert Pow2(8) == 256;
      XorBelow(MixEntry(t, matrix, i, j - 1), Reduced(Product(a, b)), 8);
    }
  }

  /**
   * MixColumns on a sixteen-entry block of bytes, with matrix entries of at
   * most 15, appends sixteen bytes: entry 16 + i is the XOR over j of the
   * folded products of matrix row i % 4 and column i / 4.
   */
  lemma MixColumnsAppends(t: seq<nat>, matrix: seq<nat>)
    requires |t| == 16 && forall n :: 0 <= n < 16 ==> t[n] < 256
    requires |matrix| == 16 && AllBelow(matrix, 16)
    ensures |MixColumnsOf(t, matrix)| == 32 && MixColumnsOf(t, matrix)[..16] == t
    ensures forall i :: 0 <= i < 16 ==>
      MixColumnsOf(t, matrix)[16 + i] == MixEntry(t, matrix, i, 4) < 256
  {
    forall i | 0 <= i < 16 ensures MixColumnsOf(t, matrix)[16 + i] == MixEntry(t, matrix, i, 4) < 256 {
      MixEntryBelow(t, matrix, i, 4);
    }
  }

  /*** AddRoundKey ***/

  /** AddRoundKey twice with the same key restores the list. */
  lemma AddedKeyTwice(t: seq<nat>, key: seq<nat>)
    requires |t| >= 16 && |key| >= 16
    ensures AddedKey(AddedKey(t, key), key) == t
  {
    forall i | 0 <= i < 16 ensures Xor(Xor(t[i], key[i]), key[i]) == t[i] {
      XorSelfInverse(t[i], key[i]);
    }
  }

  /*** Multiplication in GF(2^8) ***/

  /** `b` if the bit is set, else 0. */
  function Select(bit: nat, b: nat): nat
  {
    if bit == 1 then b else 0
  }

  /** Product of the polynomial `a` and the byte `b` in GF(2^8), by shift and xtime. */
  function GfMul(a: nat, b: nat): (r: nat)
    requires b < 256
    ensures r < 256
    decreases a
  {
    if a == 0 then 0
    else
      var rest := GfMul(a / 2, Xtime(b));
      Pow2Small();
      XorBelow(Select(a % 2, b), rest, 8);
      Xor(Select(a % 2, b), rest)
  }

  lemma GfMulStep(a: nat, b: nat)
    requires b < 256
    ensures GfMul(a, b) == Xor(Select(a % 2, b), GfMul(a / 2, Xtime(b)))
  {
  }

  /** Multiplication by 1, x and x + 1. */
  lemma GfMulSmall(b: nat)
    requires b < 256
    ensures GfMul(1, b) == b && GfMul(2, b) == Xtime(b) && GfMul(3, b) == Xor(b, Xtime(b))
  {
    assert GfMul(1, Xtime(b)) == Xtime(b);
  }

  /**
   * The worked examples of section 4.2 of FIPS 197: {57} * {83} = {c1}, and
   * {57} * {13} = {fe} through the xtime chain {ae}, {47}, {8e}, {07}.
   */
  lemma GfMulKnownAnswers()
    ensures GfMul(0x83, 0x57) == 0xc1
    ensures GfMul(0x13, 0x57) == 0xfe
  {
    XtimeChain();
    GfMulBy83();
    GfMulBy13();
  }

  /** The xtime chain of {57} used by both worked examples. */
  lemma XtimeChain()
    ensures Xtime(0x57) == 0xae && Xtime(0xae) == 0x47 && Xtime(0x47) == 0x8e
    ensures Xtime(0x8e) == 0x07 && Xtime(0x07) == 0x0e && Xtime(0x0e) == 0x1c
    ensures Xtime(0x1c) == 0x38
  {
    XtimeUnfolds(0x57);
    XtimeUnfolds(0xae);
    assert Xor(0x5c, 0x1b) == 0x47;
    XtimeUnfolds(0x47);
    XtimeUnfolds(0x8e);
    assert Xor(0x1c, 0x1b) == 0x07;
    XtimeUnfolds(0x07);
    XtimeUnfolds(0x0e);
    XtimeUnfolds(0x1c);
  }

  lemma XtimeUnfolds(b: nat)
    requires b < 256
    ensures Xtime(b) == if b < 128 then 2 * b else Xor(2 * b - 256, 27)
  {
  }

  /** {57} * {83}, one bit of the multiplier at a time. */
  lemma GfMulBy83()
    requires Xtime(0x57) == 0xae && Xtime(0xae) == 0x47 && Xtime(0x47) == 0x8e
    requires Xtime(0x8e) == 0x07 && Xtime(0x07) == 0x0e && Xtime(0x0e) == 0x1c
    requires Xtime(0x1c) == 0x38
    ensures GfMul(0x83, 0x57) == 0xc1
  {
    GfMulHighBits();
    KnownXors83();
    GfMulStep(0x41, 0xae);
    assert GfMul(0x41, 0xae) == 0x96;
    GfMulStep(0x83, 0x57);
  }

  /** The bits x^7 down to x^2 of {83} applied to the xtime chain of {57}. */
  lemma GfMulHighBits()
    requires Xtime(0x47) == 0x8e && Xtime(0x8e) == 0x07 && Xtime(0x07) == 0x0e
    requires Xtime(0x0e) == 0x1c && Xtime(0x1c) == 0x38
    ensures GfMul(0x20, 0x47) == 0x38
  {
    GfMulStep(1, 0x38);
    assert GfMul(1, 0x38) == 0x38;
    GfMulStep(2, 0x1c);
    assert GfMul(2, 0x1c) == 0x38;
    GfMulStep(4, 0x0e);
    assert GfMul(4, 0x0e) == 0x38;
    GfMulStep(8, 0x07);
    assert GfMul(8, 0x07) == 0x38;
    GfMulStep(0x10, 0x8e);
    assert GfMul(0x10, 0x8e) == 0x38;
    GfMulStep(0x20, 0x47);
  }

  /** {57} * {13}, one bit of the multiplier at a time. */
  lemma GfMulBy13()
    requires Xtime(0x57) == 0xae && Xtime(0xae) == 0x47 && Xtime(0x47) == 0x8e
    requires Xtime(0x8e) == 0x07
    ensures GfMul(0x13, 0x57) == 0xfe
  {
    GfMulStep(1, 0x07);
    assert GfMul(1, 0x07) == 0x07;
    GfMulStep(2, 0x8e);
    assert GfMul(2, 0x8e) == 0x07;
    GfMulStep(4, 0x47);
    assert GfMul(4, 0x47) == 0x07;
    KnownXors13();
    GfMulStep(9, 0xae);
    assert GfMul(9, 0xae) == 0xa9;
    GfMulStep(0x13, 0x57);
  }

  /** The sums of polynomials the product {57} * {83} adds up, halving both operands at each step. */
  lemma KnownXors83()
    ensures Xor(0xae, 0x38) == 0x96 && Xor(0x57, 0x96) == 0xc1
  {
    XorHalving(0x05, 0x01, 0x02);
    XorHalving(0x0a, 0x03, 0x04);
    XorHalving(0x15, 0x07, 0x09);
    XorHalving(0x2b, 0x0e, 0x12);
    XorHalving(0x57, 0x1c, 0x25);
    XorHalving(0xae, 0x38, 0x4b);
    XorHalving(0x01, 0x02, 0x01);
    XorHalving(0x02, 0x04, 0x03);
    XorHalving(0x05, 0x09, 0x06);
    XorHalving(0x0a, 0x12, 0x0c);
    XorHalving(0x15, 0x25, 0x18);
    XorHalving(0x2b, 0x4b, 0x30);
    XorHalving(0x57, 0x96, 0x60);
  }

  /** The sums of polynomials the product {57} * {13} adds up, halving both operands at each step. */
  lemma KnownXors13()
    ensures Xor(0xae, 0x07) == 0xa9 && Xor(0x57, 0xa9) == 0xfe
  {
    XorHalving(0x2b, 0x01, 0x15);
    XorHalving(0x57, 0x03, 0x2a);
    XorHalving(0xae, 0x07, 0x54);
    XorHalving(0x01, 0x02, 0x01);
    XorHalving(0x02, 0x05, 0x03);
    XorHalving(0x05, 0x0a, 0x07);
    XorHalving(0x0a, 0x15, 0x0f);
    XorHalving(0x15, 0x2a, 0x1f);
    XorHalving(0x2b, 0x54, 0x3f);
    XorHalving(0x57, 0xa9, 0x7f);
  }

  /** XOR of two nonzero numbers from the XOR of their halves. */
  lemma XorHalving(a: nat, b: nat, r: nat)
    requires 0 < a && 0 < b && Xor(a / 2, b / 2) == r
    ensures Xor(a, b) == 2 * r + (a % 2 + b % 2) % 2
  {
  }

  /** GF(2^8) multiplication distributes over the XOR of polynomials. */
  lemma {:induction false} GfMulDistributes(a1: nat, a2: nat, b: nat)
    requires b < 256
    ensures GfMul(Xor(a1, a2), b) == Xor(GfMul(a1, b), GfMul(a2, b))
    decreases a1 + a2
  {
    if a1 != 0 && a2 != 0 {
      var x, xb := Xor(a1, a2), Xtime(b);
      var h1, h2 := a1 / 2, a2 / 2;
      XorStep(a1, a2);
      GfMulStep(x, b);
      GfMulStep(a1, b);
      GfMulStep(a2, b);
      GfMulDistributes(h1, h2, xb);
      var s1, s2 := Select(a1 % 2, b), Select(a2 % 2, b);
      var g1, g2 := GfMul(h1, xb), GfMul(h2, xb);
      SelectXor(a1 % 2, a2 % 2, x % 2, b);
      assert GfMul(x / 2, xb) == Xor(g1, g2);
      XorSwapMiddle(s1, s2, g1, g2);
    }
  }

  /** Selecting by the XOR of two bits is the XOR of the two selections. */
  lemma SelectXor(p: nat, q: nat, r: nat, b: nat)
    requires p < 2 && q < 2 && r == (p + q) % 2
    ensures Select(r, b) == Xor(Select(p, b), Select(q, b))
  {
    if p == 1 && q == 1 {
      XorSelf(b);
    }
  }

  /** The integer product folded by MixColumns is the GF(2^8) product for entries 0, 1 and 2. */
  lemma ReducedAgreesWithGfMul(a: nat, b: nat)
    requires a <= 2 && b < 256
    ensures Reduced(a * b) == GfMul(a, b)
  {
    GfMulSmall(b);
    if a == 0 {
      Pow2Small();
    } else if a == 1 {
      ReducedOne(b);
    } else {
      ReducedTwo(b);
    }
  }

  /**
   * As written, an entry of 3 is applied with integer `*`: on the byte 3 it
   * contributes 9, where the GF(2^8) product (x + 1) * (x + 1) is 5.
   */
  lemma ReducedDiffersForThree()
    ensures Reduced(3 * 3) == 9 && GfMul(3, 3) == 5
  {
    Pow2Small();
    GfMulSmall(3);
  }

  /** Output entry `i` as FIPS 197 section 5.1.3 defines it, with GF(2^8) products. */
  function MixEntryGf(t: seq<nat>, matrix: seq<nat>, i: nat, j: nat): (r: nat)
    requires |t| >= 16 && forall n :: 0 <= n < 16 ==> t[n] < 256
    requires |matrix| == 16 && i < 16 && j <= 4
    ensures r < 256
  {
    if j == 0 then 0
    else
      var prev := MixEntryGf(t, matrix, i, j - 1);
      var product := GfMul(matrix[MatrixIndex(i, j - 1)], t[TextIndex(i, j - 1)]);
      Pow2Small();
      XorBelow(prev, product, 8);
      Xor(prev, product)
  }

  /** Where every matrix entry is 0, 1 or 2, the folded integer products give the GF(2^8) entry. */
  lemma {:induction false} MixEntryAgrees(t: seq<nat>, matrix: seq<nat>, i: nat, j: nat)
    requires |t| >= 16 && forall n :: 0 <= n < 16 ==> t[n] < 256
    requires |matrix| == 16 && AllBelow(matrix, 3) && i < 16 && j <= 4
    ensures MixEntry(t, matrix, i, j) == MixEntryGf(t, matrix, i, j)
  {
    if j > 0 {
      MixEntryAgrees(t, matrix, i, j - 1);
      ReducedAgreesWithGfMul(matrix[MatrixIndex(i, j - 1)], t[TextIndex(i, j - 1)]);
    }
  }
}
