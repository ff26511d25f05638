# crypto: a verified model of the cipher and generator cores

This project models the core of bsuth/crypto, a small collection of
textbook cryptography in Python. It covers six parts:

- **DES** (`des.py`): the Data Encryption Algorithm of FIPS PUB 46-3, driven by
  the constant tables of `app.py`. The model has the bit-gathering `permute`,
  the key schedule, one Feistel round and the whole cipher.
- **AES round steps** (`aes.py`): SubBytes, ShiftRows, MixColumns and
  AddRoundKey. They work on a Python list that the caller shares. The model
  follows this code, which departs from FIPS 197 in three places:
  - SubBytes is only the affine bit-matrix map;
  - MixColumns multiplies with integer `*` and then folds the overflow bits;
  - ShiftRows and MixColumns leave the caller's list 32 entries long.
- **RSA helpers** (`rsaKey.py`): Euclid's `gcd`, the extended-Euclid
  `modInverse`, and the deterministic prefix of `MillerRabin` (the parity
  check and the split n - 1 = 2^k * q).
- **Vigenère** (`viginere.py`): the key inversion and the cyclic letter shift
  of `encrypt`.
- **Generators** (`prng.py`): LCG, Blum Blum Shub and RC4. What they print is
  returned as a sequence.
- **Tables** (`app.py`): the DES and AES tables, as constants with lemmas
  about their shape.

Python integers are modelled as unbounded `int`/`nat`. DES blocks and keys,
RC4 keys and the entries of an AES block are naturals: negative Python integers
are outside the model (see "Left out"). Within that domain, the exceptions the
modelled functions can raise become `Err` outcomes:

- a list index past the end becomes `IndexOutOfRange`;
- `%` or `//` by zero becomes `DivisionByZero`.

The one exception is the `IndexError` that the AES block operations raise on a
list shorter than 16 entries. Those methods require 16 entries instead.

The files are these:

- `bits.dfy`: the integer bit operations (`>>`, `<<`, `&`, `^`, `|`) and their lemmas;
- `outcomes.dfy`: the `Result` type;
- `permutations.dfy`: permutations of 0..n-1;
- `des_tables.dfy` and `aes_tables.dfy`: the tables of `app.py`;
- `des.dfy`, `aes.dfy`, `rsa_key.dfy`, `vigenere.dfy` and `prng.dfy`: the five source modules.

Where the source mutates state, the model does too:

- `Aes.Block` is a class whose `items` field is the shared list;
- RC4 swaps entries of an `array`;
- the loops of `des.py`, `rsaKey.py`, `viginere.py` and `prng.py` are methods
  with loop invariants, each proved equal to a specification function.

## Model

| member | source | states |
|---|---|---|
| DesTables.InitialPermutationsInverse | app.py:3-21 | IP and oIP have 64 entries, each is a permutation of 0..63, and each undoes the other position by position |
| DesTables.PIsPermutation | app.py:54-58 | P is a permutation of 0..31 |
| DesTables.ExpansionShape | app.py:44-52 | E has 48 entries, all below 32 |
| DesTables.Pc2Shape | app.py:33-39 | PC2 has 48 entries, all below 56 |
| DesTables.Pc1Shape | app.py:23-31 | PC1 has 56 distinct entries below 64, and none is a multiple of 8 (no parity bit is read) |
| DesTables.ShiftScheduleShape | app.py:41-42 | LS has 16 entries, each 1 or 2 |
| DesTables.RowsArePermutations | app.py:60-106 | an S-box with a row-wise inverse table has entries below 16, and each of its four rows is a permutation of 0..15 |
| DesTables.SBoxesShape | app.py:60-106 | the eight S-boxes each have 64 entries below 16, and every row of every box is a permutation of 0..15 |
| Permutations.LeftInverseInjective | app.py:3-21 | a table with a left inverse has entries below n and no repeated entry |
| Des.PermutedBits | des.py:6-10 | `permute(text, box)` is below 2^len(box), and its bit len(box)-1-i is bit box[i] of text |
| Des.Permute | des.py:6-10 | the loop computes the specified gathering, below 2^len(box), bit for bit as above |
| Des.PermutedReadsOnlyBox | des.py:6-10 | two texts that agree on the bits the box names give the same result |
| Des.PermutedUndone | des.py:6-10 | gathering by a table and then by a table that undoes it gives the input back |
| Des.InitialPermutationRoundTrip | des.py:76 | for x < 2^64, applying IP then oIP gives x, and so does oIP then IP |
| Des.RotateHalfRotates | des.py:27-28 | a 28-bit half rotated by s in 1..27 stays below 2^28, and bit b moves to bit (b+s) mod 28 (a circular left shift) |
| Des.RotationMovesBits | des.py:27-28 | the same circular-shift property for any width w |
| Des.KeySchedule | des.py:14-38 | the loop, the appends and the reversal return the specified schedule, or an IndexError past 16 rounds |
| Des.KeyScheduleFails | des.py:21-27 | the schedule fails exactly when rounds > 16, and then with an index error |
| Des.KeyScheduleShape | des.py:14-38 | for rounds ≤ 16 both schedules exist and have `rounds` subkeys, each below 2^48, and the decrypting one is the encrypting one reversed |
| Des.ForwardSubkeysShape | des.py:21-32 | the generated subkeys number n and are each below 2^48 |
| Des.RotatedKeyBelow | des.py:23-31 | the 56-bit key state stays below 2^56 after any number of rotations |
| Des.ReversedAll | des.py:35-36 | `reverse()` keeps the length and puts entry len-1-i at position i |
| Des.ParityBitsIgnored | des.py:18 | keys that differ only in bits 0, 8, ..., 56 give the same schedule |
| Des.SBoxIndex | des.py:57-60 | the S-box index `sRow*16 + sColumn` of a 6-bit input is below 64 |
| Des.SBoxIndexBound | des.py:57-59 | the row bits are each below 2 and the column is below 16 |
| Des.CipherFBelow | des.py:53-63 | the value of the cipher function f (expansion, key XOR, S-boxes, P) is below 2^32 |
| Des.DesRound | des.py:42-66 | the loop computes the specified round |
| Des.RoundHalves | des.py:42-66 | for text < 2^64 the round is below 2^64, its high half is the input's low half, and its low half is f(low half, subkey) XOR the high half |
| Des.SwapHalves | des.py:83 | the half swap stays below 2^64, exchanges the halves and is its own inverse |
| Des.FeistelInverse | des.py:50-66 | swap, round, swap, round with the same subkey gives back any x < 2^64 |
| Des.Run | des.py:71-84 | `des` computes the specified cipher: schedule, IP, the rounds, the swap, oIP |
| Des.RoundsAppend | des.py:79-80 | running the rounds of a + b is running those of a, then those of b |
| Des.RoundsBelow | des.py:79-80 | the rounds keep a block below 2^64 |
| Des.RoundsReversedUndo | des.py:79-83 | the rounds with the reversed subkeys, between swaps, undo the rounds |
| Des.DesRoundTrip | des.py:71-84 | for p < 2^64 and 0 ≤ rounds ≤ 16 encryption succeeds, and decrypting its result with the same key gives p |
| Des.DesBelow | des.py:83-84 | whatever `des` returns is below 2^64 |
| Des.DesEncryptRoundTrip | des.py:71-84 | with the defaults rounds = 16 and decrypt = False, encrypting p < 2^64 succeeds with a block below 2^64, and `des(c, key, decrypt=True)` gives p back |
| AesTables.AffineTablesAreBits | app.py:114-138 | the affine matrices and constants hold only 0 and 1, in 64 and 8 entries |
| AesTables.ForwardAffineBits | app.py:114-125 | the map with (S, SC) sends bits b to the stated XOR combinations |
| AesTables.InverseAffineBits | app.py:127-138 | the map with (oS, oSC) sends bits y to the stated XOR combinations |
| AesTables.AffineInverse | app.py:114-138 | the two affine maps invert each other on every 8-bit vector |
| AesTables.ShiftRowTablesInverse | app.py:140-150 | SR and oSR are permutations of 0..15 and SR[oSR[i]] == i == oSR[SR[i]] |
| AesTables.MixMatricesShape | app.py:152-162 | MC and oMC have 16 entries, each below 16 |
| Aes.Block.SubBytes | aes.py:24-34 | the loops leave the specified list: entries 0..15 substituted one by one, the rest unchanged |
| Aes.SubByteBits | aes.py:27-34 | for a byte, bit 7-j of the result is vec[j] XOR the parity of matrix row j AND the input bits read most significant first |
| Aes.SubByteIsAffine | aes.py:27-34 | the shift-and-XOR loop packs the affine map of the byte's bits |
| Aes.SubByteInverse | aes.py:24-34 | for a byte, substituting with (S, SC) and then (oS, oSC) gives it back, and the reverse |
| Aes.SubBytesRestores | aes.py:24-34 | SubBytes with (S, SC) then (oS, oSC) restores a list whose first 16 entries are bytes, and so does the reverse order |
| Aes.Block.ShiftRows | aes.py:42-45 | the caller's list becomes the old list followed by the 16 gathered entries, because the slice only rebinds a local name |
| Aes.ShiftRowsLeavesBlock | aes.py:42-45 | after ShiftRows the first 16 entries are the unshifted block, which differs from the shifted one whenever text[1] != text[5] |
| Aes.GatheredInverse | aes.py:43-44 | gathering by SR then by oSR is the identity on a 16-entry block, and so is the reverse |
| Aes.Block.ShiftRowsInPlace | aes.py:42-45 | the intended ShiftRows: the 16-entry block is replaced by the gathered one |
| Aes.Block.MixColumns | aes.py:54-74 | the caller's list becomes the old list followed by 16 mixed entries |
| Aes.Block.AppendZeros | aes.py:56-57 | sixteen zeros are appended to the caller's list and nothing else changes |
| Aes.Block.MixOne | aes.py:59-71 | one column-row entry XORs the folded products of its four matrix and text entries into entry 16+i |
| Aes.Block.XorInProduct | aes.py:62-71 | one product folds into entry k: the low byte, then `27 << b` for every overflow bit b |
| Aes.MixColumnsAppends | aes.py:54-74 | for a block of bytes and matrix entries below 16 the list grows to 32, keeps its first 16 entries, and entry 16+i is the mixed byte, below 256 |
| Aes.Block.MixColumnsInPlace | aes.py:54-74 | MixColumns without the rebinding: the block keeps 16 entries and entry i is the mixed byte |
| Aes.Block.MixColumnsGf | aes.py:48-74 | the intended MixColumns: the block keeps 16 entries and entry i is the GF(2^8) product of matrix row i mod 4 with column i div 4 |
| Aes.ReducedOne | aes.py:62-71 | a matrix entry of 1 contributes the byte itself |
| Aes.ReducedTwo | aes.py:62-71 | a matrix entry of 2 contributes xtime of the byte (shift left, XOR 0x1B on overflow) |
| Aes.Xtime | aes.py:62-71 | xtime of a byte is a byte |
| Aes.ReduceBelow | aes.py:66-71 | folding overflow bits into a byte with a small enough modulus gives a byte |
| Aes.ReducedBelow | aes.py:62-71 | every product below 4096 folds to a byte |
| Aes.MixEntryBelow | aes.py:59-71 | every mixed entry of a byte block with matrix entries below 16 is a byte |
| Aes.ReduceXor | aes.py:63-69 | XOR-ing into the entry first or after the fold gives the same value |
| Aes.MixEntryReadsBlock | aes.py:62 | a mixed entry reads only entries 0..15 of the list |
| Aes.GfMul | aes.py:48-53 | multiplication in GF(2^8) with x^8 + x^4 + x^3 + x + 1, which the comment promises, maps bytes to bytes |
| Aes.GfMulSmall | aes.py:48-53 | in GF(2^8) 1·b = b, 2·b = xtime(b) and 3·b = b XOR xtime(b) |
| Aes.GfMulDistributes | aes.py:48-53 | GF(2^8) multiplication distributes over XOR |
| Aes.GfMulKnownAnswers | aes.py:48-53 | the worked examples of section 4.2 of FIPS 197 hold for this multiplication: {57}·{83} = {c1} and {57}·{13} = {fe} |
| Aes.ReducedAgreesWithGfMul | aes.py:62-71 | for matrix entries 0, 1 and 2 the integer product and fold equal GF(2^8) multiplication |
| Aes.ReducedDiffersForThree | aes.py:62-71 | for entry 3 they differ: 3 * 3 folds to 9 while 3·3 in GF(2^8) is 5 |
| Aes.MixEntryGf | aes.py:59-71 | the intended mixed entry, with GF(2^8) products, is a byte |
| Aes.MixEntryAgrees | aes.py:59-71 | with matrix entries at most 2 the code's mixed entry equals the GF(2^8) one |
| Aes.Block.AddRoundKey | aes.py:79-81 | entries 0..15 are XOR-ed with the key, the rest and the length unchanged |
| Aes.AddedKeyTwice | aes.py:79-81 | AddRoundKey twice with the same key restores the list |
| RsaKey.GcdIsGreatestCommonDivisor | rsaKey.py:39-40 | for a, b not both 0, gcd(a, b) is positive and divides both, and every positive common divisor divides it |
| RsaKey.ModInvHelper | rsaKey.py:45-46 | the step fails with ZeroDivisionError exactly when a is 0; otherwise the new m is a, the new a is smaller, r1 takes r2, and the gcd is kept |
| RsaKey.ModInvHelperKeepsCongruence | rsaKey.py:45-46 | the step keeps x*r1 ≡ m and x*r2 ≡ a modulo the original modulus |
| RsaKey.InverseMeansCoprime | rsaKey.py:53-56 | an inverse of a modulo m exists only when gcd(m, a) == 1 |
| RsaKey.ModInverse | rsaKey.py:47-56 | the loop fails only with ZeroDivisionError, always for m == 0; a result r has 0 ≤ r < m and a*r % m == 1; for m > 1 and a ≥ 1 it succeeds exactly when gcd(m, a) == 1 |
| RsaKey.MillerRabinPrefix | rsaKey.py:9-19 | even n is rejected; n == 1 never leaves the loop; otherwise k ≥ 1, q is odd and n - 1 == 2^k * q |
| Vigenere.InvertLetter | viginere.py:49 | an inverted key letter is a capital |
| Vigenere.ShiftLetter | viginere.py:54 | a shifted letter is a capital whatever the inputs |
| Vigenere.Encrypt | viginere.py:45-54 | the two loops compute the specified text, or ZeroDivisionError for an empty key |
| Vigenere.VigenereShape | viginere.py:53-54 | the result fails exactly for a non-empty text with an empty key; otherwise it has the text's length and only capitals |
| Vigenere.InvertLetterShift | viginere.py:46-50 | the inverse of capital k shifts by (26 - (k - 65)) mod 26 |
| Vigenere.ShiftedKeyRepeats | viginere.py:54 | the key is applied cyclically: doubling it changes nothing |
| Vigenere.ShiftLetterInverse | viginere.py:49-54 | shifting a capital by k and then by the inverse of k gives it back |
| Vigenere.VigenereRoundTrip | viginere.py:45-54 | for capitals and a non-empty capital key, decrypting the encryption gives the text back |
| Vigenere.KeyOfAIsIdentity | viginere.py:54 | a key of only 'A's leaves capitals unchanged |
| Prng.PyMod | prng.py:11 | Python's `%` lies in [0, m) for m > 0 and in (m, 0] for m < 0 |
| Prng.Lcg | prng.py:9-12 | the loop returns the specified values, or ZeroDivisionError for m == 0 |
| Prng.LcgRecurrence | prng.py:9-12 | for m != 0 there are exactly `num_random` values, the first is a*seed mod m, each next is a*previous mod m, all in [0, m) for m > 0 |
| Prng.LcgDefaultRecurrence | prng.py:9-12 | with the defaults a = 7^5 and m = 2^31 - 1, LCG never fails, gives `num_random` values in [0, 2^31 - 1), the first 7^5·seed mod m and each next 7^5·previous mod m |
| Prng.Bbs | prng.py:19-27 | the loop returns the specified bits, or ZeroDivisionError when p*q == 0 |
| Prng.BbsShape | prng.py:19-27 | for n = p*q != 0 there are `num_random` outputs; output i is the low bit of the seed squared i+2 times mod n, so 0 or 1 |
| Prng.BbsBitsAreSquarings | prng.py:25-27 | output i of the loop is the low bit of the state squared i+1 times |
| Prng.SwapPermutes | prng.py:42-45 | a swap keeps the multiset of S |
| Prng.Scrambled | prng.py:37-45 | the key-scheduling loop fails only with an index error, and otherwise leaves 255 entries |
| Prng.ScrambledStep | prng.py:40-45 | one step fails when j reaches 255 and otherwise swaps S[i] and S[j] |
| Prng.ScrambledPermutes | prng.py:37-45 | a completed key schedule keeps S a permutation of its start |
| Prng.NextOutput | prng.py:50-60 | one output step fails only with an index error, always when j reaches 255; otherwise j advances by 1 mod 256 and S keeps 255 entries |
| Prng.NextOutputPermutes | prng.py:50-60 | one output step keeps S a permutation, and the value printed is an element of S |
| Prng.GeneratedBelow | prng.py:47-60 | from a permutation of 0..254, a successful run prints `num_random` values, each below 255 |
| Prng.GeneratedFails | prng.py:49-51 | the output loop fails once j would reach 255, so by the 255th output at the latest |
| Prng.Rc4Of | prng.py:31-60 | RC4 fails only with an index error |
| Prng.Rc4Shape | prng.py:31-60 | the key schedule leaves a permutation of 0..254; a successful run prints `num_random` values below 255; 255 or more outputs always fail |
| Prng.Rc4 | prng.py:31-60 | the array version computes the specified outputs |
| Prng.Swap | prng.py:42-45 | the three-assignment swap exchanges two entries of S and leaves the rest unchanged |
| Prng.ScheduleKey | prng.py:37-45 | the in-place swap loop leaves S as the specified schedule, and reports whether it failed |
| Prng.Generate | prng.py:47-60 | the in-place output loop returns the specified outputs |
| Prng.Advance | prng.py:50-60 | one in-place iteration matches one specified output step |

## Left out

- Console and file I/O: the `input()` calls and the menu of `viginere.py`, and every `print`. The key and the decrypt choice are parameters, and printed values are returned.
- `.upper()` on the Vigenère key and text is not modelled. The lemmas that need capitals require them.
- `getIoC` and `getKeyLengths` use floating-point division and a threshold, so they are not modelled.
- The random witness loop of `MillerRabin` (rsaKey.py:22-31) and `genKey` (rsaKey.py:64-83) draw from `random.randint`, so they are not modelled.
- `sys.getsizeof(key)` in RC4 is the parameter `size`. Python reports a positive size for every integer, so the model requires `size > 0`.
- RC4's key is a natural. A negative Python key would shift in sign bits.
- Prng.Rc4Of and the other generators: a run that fails returns only the error. The values printed before the exception are not kept.
- RsaKey.MillerRabinPrefix: for n == 1 the source loops forever; the model reports `Diverges` instead of running.
- RsaKey.ModInverse: modelled for natural m and a only, which is how `genKey` calls it.
- The DES known-answer vector (`des(0x0123456789ABCDEF, 0x133457799BBCDFF1) == 0x85E813540F0AB405`) is not proved. Evaluating 16 rounds of bit gathering on concrete numbers is beyond what the verifier does in reasonable time.
- Aes.Block.SubBytes, Aes.Block.ShiftRows, Aes.Block.MixColumns and Aes.Block.AddRoundKey: these require at least 16 entries and tables of the right size. Python raises IndexError on shorter lists, and the model does not describe that error path.
- Des.Run, Des.KeySchedule, Des.Permute and the Aes.Block methods (SubBytes, ShiftRows, MixColumns, AddRoundKey) take naturals, so negative integers are not modelled. Python's `>>` and `&` see a negative number as infinitely many two's-complement sign bits, so `des(-1, k)` equals `des(2**64 - 1, k)`, and a negative AES entry makes SubBytes raise ValueError in `format` (aes.py:27).
- Aes.Block.MixColumnsGf: the corrected MixColumns is proved to compute the GF(2^8) matrix product entry by entry. That oMC undoes MC (InvMixColumns after MixColumns) is not proved.
- AES key expansion, an AES encrypt/decrypt driver and triple DES are not part of this model; no such functions exist in these files.
- Aliasing: `Aes.Block` owns its list, so two callers sharing one Python list are not modelled.

## Findings

| source | as written | input that shows it | evidently intended | confidence | as-written member | corrected member |
|---|---|---|---|---|---|---|
| aes.py:45, aes.py:74 | `text = text[16:]` rebinds only the local name, so the caller's list keeps the old 16 entries followed by the 16 new ones | any block with text[1] != text[5]: the caller's first 16 entries are not the shifted rows | the caller's block is replaced by the 16 new entries | not executed | Aes.ShiftRowsLeavesBlock | Aes.Block.ShiftRowsInPlace |
| aes.py:62 | the matrix entry and the byte are multiplied as integers and the overflow folded, which is GF(2^8) multiplication only for entries 0, 1 and 2 | entry 3 and byte 3: the code gives 9, GF(2^8) gives 5 | multiplication in GF(2^8) modulo x^8 + x^4 + x^3 + x + 1, as the comment at aes.py:48-53 says | not executed | Aes.ReducedDiffersForThree | Aes.Block.MixColumnsGf |
