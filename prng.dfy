/**
 * The three generators of prng.py.  Each prints its numbers; here each
 * returns them as a sequence, and a Python exception ends the run with an
 * error outcome instead.
 */
module Prng {
  import opened Bits
  import opened Outcomes

  /** Python's `x % m` for m != 0: the result takes the sign of `m`. */
  function PyMod(x: int, m: int): (r: int)
    requires m != 0
    ensures m > 0 ==> 0 <= r < m
    ensures m < 0 ==> m < r <= 0
  {
    if m > 0 then x % m else -((-x) % (-m))
  }

  /*** LCG (prng.py:9-12) ***/

  /** The default arguments of LCG: a = 7^5 and m = 2^31 - 1. */
  const LcgMultiplier: int := 16807
  const LcgModulus: int := 0x7fff_ffff

  /** The `count` values after `seed`: each is `(a * previous) % m`. */
  function LcgValues(seed: int, count: nat, a: int, m: int): (r: seq<int>)
    requires m != 0
    ensures |r| == count
    decreases count
  {
    if count == 0 then []
    else
      var next := PyMod(a * seed, m);
      [next] + LcgValues(next, count - 1, a, m)
  }

  /** What LCG prints; a modulus of 0 raises ZeroDivisionError at the first step. */
  function LcgOf(seed: int, count: nat, a: int, m: int): Result<seq<int>>
  {
    if m == 0 then (if count == 0 then Ok([]) else Err(DivisionByZero))
    else Ok(LcgValues(seed, count, a, m))
  }

  method Lcg(seed: int, count: nat, a: int, m: int) returns (r: Result<seq<int>>)
    ensures r == LcgOf(seed, count, a, m)
  {
    var out := [];
    var s := seed;
    for i := 0 to count
      invariant m == 0 ==> i == 0 && out == []
      invariant m != 0 ==> LcgValues(seed, count, a, m) == out + LcgValues(s, count - i, a, m)
    {
      if m == 0 {
        return Err(DivisionByZero);
      }
      ghost var prev, done := s, out;
      s := PyMod(a * s, m);
      out := out + [s];
      LcgValuesStep(prev, count - i, a, m);
      AppendRegroup(done, [s], LcgValues(s, count - i - 1, a, m));
    }
    if m == 0 {
      return LcgOf(seed, count, a, m);
    }
    assert LcgValues(s, 0, a, m) == [];
    assert out == LcgValues(seed, count, a, m);
    return Ok(out);
  }

  /** One unfolding of LcgValues. */
  lemma LcgValuesStep(seed: int, count: nat, a: int, m: int)
    requires m != 0 && count > 0
    ensures LcgValues(seed, count, a, m) == [PyMod(a * seed, m)] + LcgValues(PyMod(a * seed, m), count - 1, a, m)
  {
  }

  /** Concatenation regroups. */
  lemma AppendRegroup(a: seq<int>, b: seq<int>, c: seq<int>)
    ensures a + (b + c) == (a + b) + c
  {
  }

  /**
   * LCG produces exactly `count` values; the first is `(a * seed) % m`, each
   * next one is `(a * previous) % m`, and for m > 0 all lie in [0, m).
   */
  lemma {:induction false} LcgRecurrence(seed: int, count: nat, a: int, m: int)
    requires m != 0
    decreases count
    ensures LcgOf(seed, count, a, m).Ok? && |LcgOf(seed, count, a, m).value| == count
    ensures count > 0 ==> LcgValues(seed, count, a, m)[0] == PyMod(a * seed, m)
    ensures forall i :: 0 <= i < count - 1 ==>
      LcgValues(seed, count, a, m)[i + 1] == PyMod(a * LcgValues(seed, count, a, m)[i], m)
    ensures m > 0 ==> forall i :: 0 <= i < count ==> 0 <= LcgValues(seed, count, a, m)[i] < m
  {
    if count > 0 {
      var next := PyMod(a * seed, m);
      var rest := LcgValues(next, count - 1, a, m);
      LcgRecurrence(next, count - 1, a, m);
      assert LcgValues(seed, count, a, m) == [next] + rest;
      forall i | 0 <= i < count - 1
        ensures LcgValues(seed, count, a, m)[i + 1] == PyMod(a * LcgValues(seed, count, a, m)[i], m)
      {
        if i > 0 {
          assert rest[i] == PyMod(a * rest[i - 1], m);
        }
      }
    }
  }

  /** `LCG(seed, num_random)` called with its default multiplier and modulus. */
  function LcgDefault(seed: int, count: nat): Result<seq<int>>
  {
    LcgOf(seed, count, LcgMultiplier, LcgModulus)
  }

  /**
   * With its defaults LCG is the Lehmer generator X' = 7^5 X mod (2^31 - 1):
   * it never fails, and every value lies in [0, 2^31 - 1).
   */
  lemma LcgDefaultRecurrence(seed: int, count: nat)
    ensures LcgDefault(seed, count).Ok? && |LcgDefault(seed, count).value| == count
    ensures count > 0 ==> LcgDefault(seed, count).value[0] == (LcgMultiplier * seed) % LcgModulus
    ensures forall i :: 0 <= i < count - 1 ==>
      LcgDefault(seed, count).value[i + 1] == (LcgMultiplier * LcgDefault(seed, count).value[i]) % LcgModulus
    ensures forall i :: 0 <= i < count ==> 0 <= LcgDefault(seed, count).value[i] < LcgModulus
  {
    LcgRecurrence(seed, count, LcgMultiplier, LcgModulus);
  }

  /*** BBS (prng.py:19-27) ***/

  /** `state` squared modulo `n`, `k` times over. */
  function Squarings(state: int, k: nat, n: int): int
    requires n != 0
    decreases k
  {
    if k == 0 then state else Squarings(PyMod(state * state, n), k - 1, n)
  }

  /** The `count` bits after `state`: square modulo `n`, then output the low bit. */
  function BbsBits(state: int, count: nat, n: int): (r: seq<int>)
    requires n != 0
    ensures |r| == count
    decreases count
  {
    if count == 0 then []
    else
      var next := PyMod(state * state, n);
      [next % 2] + BbsBits(next, count - 1, n)
  }

  /** One unfolding of BbsBits. */
  lemma BbsBitsStep(state: int, count: nat, n: int)
    requires n != 0 && count > 0
    ensures BbsBits(state, count, n) == [PyMod(state * state, n) % 2] + BbsBits(PyMod(state * state, n), count - 1, n)
  {
  }

  /**
   * What BBS prints: the seed is squared once before any output.  `seed & 1`
   * equals `seed % 2` for every Python integer.  A modulus p * q of 0 raises
   * ZeroDivisionError before any output.
   */
  function BbsOf(seed: int, count: nat, p: int, q: int): Result<seq<int>>
  {
    var n := p * q;
    if n == 0 then Err(DivisionByZero) else Ok(BbsBits(PyMod(seed * seed, n), count, n))
  }

  method Bbs(seed: int, count: nat, p: int, q: int) returns (r: Result<seq<int>>)
    ensures r == BbsOf(seed, count, p, q)
  {
    var n := p * q;
    if n == 0 {
      return Err(DivisionByZero);
    }
    var s := PyMod(seed * seed, n);
    ghost var start := s;
    var out := [];
    for i := 0 to count
      invariant BbsBits(start, count, n) == out + BbsBits(s, count - i, n)
    {
      ghost var prev, done := s, out;
      s := PyMod(s * s, n);
      out := out + [s % 2];
      BbsBitsStep(prev, count - i, n);
      AppendRegroup(done, [s % 2], BbsBits(s, count - i - 1, n));
    }
    assert BbsBits(s, 0, n) == [];
    assert out == BbsBits(start, count, n);
    assert BbsOf(seed, count, p, q) == Ok(BbsBits(start, count, n));
    return Ok(out);
  }

  /**
   * BBS emits exactly `count` bits, and bit i is the low bit of the seed
   * squared i + 2 times modulo n.
   */
  lemma BbsShape(seed: int, count: nat, p: int, q: int)
    requires p * q != 0
    ensures BbsOf(seed, count, p, q).Ok? && |BbsOf(seed, count, p, q).value| == count
    ensures forall i :: 0 <= i < count ==>
      BbsOf(seed, count, p, q).value[i] == Squarings(seed, i + 2, p * q) % 2 &&
      0 <= BbsOf(seed, count, p, q).value[i] <= 1
  {
    var n := p * q;
    BbsBitsAreSquarings(PyMod(seed * seed, n), count, n);
  }

  lemma {:induction false} BbsBitsAreSquarings(state: int, count: nat, n: int)
    requires n != 0
    decreases count
    ensures forall i :: 0 <= i < count ==> BbsBits(state, count, n)[i] == Squarings(state, i + 1, n) % 2
  {
    if count > 0 {
      var next := PyMod(state * state, n);
      BbsBitsAreSquarings(next, count - 1, n);
      forall i | 0 <= i < count ensures BbsBits(state, count, n)[i] == Squarings(state, i + 1, n) % 2 {
        if i > 0 {
          assert BbsBits(state, count, n)[i] == BbsBits(next, count - 1, n)[i - 1];
        }
      }
    }
  }

  /*** RC4 (prng.py:31-60) ***/

  /** `[i for i in range(n)]`. */
  function Iota(n: nat): (r: seq<nat>)
    ensures |r| == n
  {
    seq(n, i requires 0 <= i < n => i)
  }

  /** S holds exactly the numbers 0..254, each once. */
  predicate IsState(s: seq<nat>)
  {
    multiset(s) == multiset(Iota(255))
  }

  /** The three-assignment swap through `temp`. */
  function Swapped(s: seq<nat>, a: nat, b: nat): (r: seq<nat>)
    requires a < |s| && b < |s|
    ensures |r| == |s|
  {
    s[a := s[b]][b := s[a]]
  }

  /** A swap permutes the entries. */
  lemma SwapPermutes(s: seq<nat>, a: nat, b: nat)
    requires a < |s| && b < |s|
    ensures multiset(Swapped(s, a, b)) == multiset(s)
  {
  }

  /**
   * `T`: bit `i % size` of the key, where `size` stands for
   * `sys.getsizeof(key)`.
   */
  function KeyBits(key: nat, size: nat): (t: seq<nat>)
    requires size > 0
    ensures |t| == 255
  {
    seq(255, i requires 0 <= i < 255 => Bit(key, i % size))
  }

  /**
   * The key-scheduling loop from step `i` on, with `j` its current value.
   * `S` has 255 entries, so `j == 255` raises IndexError at the swap.
   */
  function Scrambled(s: seq<nat>, t: seq<nat>, i: nat, j: nat): (r: Result<seq<nat>>)
    requires |s| == 255 && |t| == 255 && i <= 255
    ensures r.Err? ==> r.error == IndexOutOfRange
    ensures r.Ok? ==> |r.value| == 255
    decreases 255 - i
  {
    if i == 255 then Ok(s)
    else
      var j' := (j + s[i] + t[i]) % 256;
      if j' >= 255 then Err(IndexOutOfRange) else Scrambled(Swapped(s, i, j'), t, i + 1, j')
  }

  /** `prefix` in front of the outputs of a run that succeeds; an error stays. */
  function Prepend(prefix: seq<nat>, r: Result<seq<nat>>): Result<seq<nat>>
  {
    if r.Err? then r else Ok(prefix + r.value)
  }

  /** S with the two counters of the generation loop. */
  datatype Rc4State = Rc4State(s: seq<nat>, j: nat, k: nat)

  /**
   * One iteration of the generation loop (prng.py:51-60): the new state and
   * the output.  Index 255 is past the end of S, at `S[j]`, at the swap or at
   * the output index.
   */
  function NextOutput(st: Rc4State): (r: Result<(Rc4State, nat)>)
    requires |st.s| == 255
    ensures r.Err? ==> r.error == IndexOutOfRange
    ensures (st.j + 1) % 256 == 255 ==> r.Err?
    ensures r.Ok? ==> r.value.0.j == (st.j + 1) % 256
    ensures r.Ok? ==> |r.value.0.s| == 255
  {
    var j := (st.j + 1) % 256;
    if j >= 255 then Err(IndexOutOfRange)
    else
      var k := (st.k + st.s[j]) % 256;
      if k >= 255 then Err(IndexOutOfRange)
      else
        var s := Swapped(st.s, j, k);
        var x := (s[j] + s[k]) % 256;
        if x >= 255 then Err(IndexOutOfRange)
        else Ok((Rc4State(s, j, k), s[x]))
  }

  /** The generation loop for `count` more outputs. */
  function Generated(st: Rc4State, count: nat): (r: Result<seq<nat>>)
    requires |st.s| == 255
    ensures r.Err? ==> r.error == IndexOutOfRange
    decreases count
  {
    if count == 0 then Ok([])
    else
      var next := NextOutput(st);
      if next.Err? then Err(next.error)
      else Prepend([next.value.1], Generated(next.value.0, count - 1))
  }

  /** What RC4 prints: the key schedule, then `count` outputs. */
  function Rc4Of(key: nat, size: nat, count: nat): (r: Result<seq<nat>>)
    requires size > 0
    ensures r.Err? ==> r.error == IndexOutOfRange
  {
    var scheduled := Scrambled(Iota(255), KeyBits(key, size), 0, 0);
    if scheduled.Err? then Err(scheduled.error) else Generated(Rc4State(scheduled.value, 0, 0), count)
  }

  /** RC4 on the list S, which it swaps in place. */
  method Rc4(key: nat, size: nat, count: nat) returns (r: Result<seq<nat>>)
    requires size > 0
    ensures r == Rc4Of(key, size, count)
  {
    var S := new nat[255](i => i);
    assert S[..] == Iota(255);
    var T := KeyBits(key, size);
    var ok := ScheduleKey(S, T);
    if !ok {
      return Err(IndexOutOfRange);
    }
    r := Generate(S, count);
  }

  /**
   * The key-scheduling loop (prng.py:37-45) on S in place: it fails exactly
   * when the schedule indexes 255, and otherwise leaves S permuted.
   */
  method ScheduleKey(S: array<nat>, T: seq<nat>) returns (ok: bool)
    requires S.Length == 255 && |T| == 255
    modifies S
    ensures ok == Scrambled(old(S[..]), T, 0, 0).Ok?
    ensures ok ==> S[..] == Scrambled(old(S[..]), T, 0, 0).value
  {
    ghost var goal := Scrambled(S[..], T, 0, 0);
    var j := 0;
    for i := 0 to 255
      invariant goal == Scrambled(S[..], T, i, j)
    {
      var next;
      next, ok := ScheduleStep(S, T, i, j);
      if !ok {
        return false;
      }
      j := next;
    }
    return true;
  }

  /** One pass of the key-scheduling loop: `j` moves on, then S[i] and S[j] swap. */
  method ScheduleStep(S: array<nat>, T: seq<nat>, i: nat, j: nat) returns (next: nat, ok: bool)
    requires S.Length == 255 && |T| == 255 && i < 255
    modifies S
    ensures ok == (next < 255)
    ensures !ok ==> Scrambled(old(S[..]), T, i, j).Err?
    ensures ok ==> Scrambled(old(S[..]), T, i, j) == Scrambled(S[..], T, i + 1, next)
  {
    ghost var cur := S[..];
    assert S[i] == cur[i];
    next := (j + S[i] + T[i]) % 256;
    ScrambledStep(cur, T, i, j, next);
    if next >= 255 {
      return next, false;
    }
    Swap(S, i, next);
    ok := true;
  }

  /** `S[a], S[b] = S[b], S[a]`. */
  method Swap(S: array<nat>, a: nat, b: nat)
    requires a < S.Length && b < S.Length
    modifies S
    ensures S[..] == Swapped(old(S[..]), a, b)
  {
    S[a], S[b] := S[b], S[a];
  }

  /** The generation loop (prng.py:48-60) on S in place. */
  method Generate(S: array<nat>, count: nat) returns (r: Result<seq<nat>>)
    requires S.Length == 255
    modifies S
    ensures r == Generated(Rc4State(old(S[..]), 0, 0), count)
  {
    ghost var goal := Generated(Rc4State(S[..], 0, 0), count);
    var out := [];
    assert goal.Ok? ==> [] + goal.value == goal.value;
    var j := 0;
    var k := 0;
    for n := 0 to count
      invariant goal == Prepend(out, Generated(Rc4State(S[..], j, k), count - n))
    {
      ghost var rest := Generated(Rc4State(S[..], j, k), count - n);
      var step := Advance(S, j, k);
      if step.Err? {
        return Err(step.error);
      }
      var (j', k', v) := step.value;
      j, k := j', k';
      PrependTwice(out, [v], Generated(Rc4State(S[..], j, k), count - n - 1));
      out := out + [v];
    }
    assert Generated(Rc4State(S[..], j, k), 0) == Ok([]);
    assert out + [] == out;
    return Ok(out);
  }

  /** One iteration of the generation loop (prng.py:51-60) on S in place: the new `j`, `k` and the output. */
  method Advance(S: array<nat>, j: nat, k: nat) returns (r: Result<(nat, nat, nat)>)
    requires S.Length == 255
    modifies S
    ensures r.Err? <==> NextOutput(Rc4State(old(S[..]), j, k)).Err?
    ensures r.Err? ==> r.error == IndexOutOfRange
    ensures r.Ok? ==> var (st, v) := NextOutput(Rc4State(old(S[..]), j, k)).value;
      S[..] == st.s && r.value == (st.j, st.k, v)
  {
    ghost var cur := S[..];
    var j' := (j + 1) % 256;
    if j' >= 255 {
      return Err(IndexOutOfRange);
    }
    var k' := (k + S[j']) % 256;
    if k' >= 255 {
      return Err(IndexOutOfRange);
    }
    Swap(S, j', k');
    var x := (S[j'] + S[k']) % 256;
    if x >= 255 {
      return Err(IndexOutOfRange);
    }
    return Ok((j', k', S[x]));
  }

  /** One step of the key schedule: it fails at index 255 and otherwise swaps. */
  lemma ScrambledStep(s: seq<nat>, t: seq<nat>, i: nat, j: nat, j': nat)
    requires |s| == 255 && |t| == 255 && i < 255 && j' == (j + s[i] + t[i]) % 256
    ensures j' >= 255 ==> Scrambled(s, t, i, j).Err?
    ensures j' < 255 ==> Scrambled(s, t, i, j) == Scrambled(Swapped(s, i, j'), t, i + 1, j')
  {
  }

  lemma PrependTwice(a: seq<nat>, b: seq<nat>, r: Result<seq<nat>>)
    ensures Prepend(a, Prepend(b, r)) == Prepend(a + b, r)
  {
    if r.Ok? {
      assert a + (b + r.value) == (a + b) + r.value;
    }
  }

  /** The key schedule only swaps, so it permutes S. */
  lemma {:induction false} ScrambledPermutes(s: seq<nat>, t: seq<nat>, i: nat, j: nat)
    requires |s| == 255 && |t| == 255 && i <= 255
    ensures Scrambled(s, t, i, j).Ok? ==> multiset(Scrambled(s, t, i, j).value) == multiset(s)
    decreases 255 - i
  {
    if i < 255 {
      var j' := (j + s[i] + t[i]) % 256;
      if j' < 255 {
        ScrambledPermutes(Swapped(s, i, j'), t, i + 1, j');
        SwapPermutes(s, i, j');
      }
    }
  }

  /** One output step only swaps, and it outputs an entry of S. */
  lemma NextOutputPermutes(st: Rc4State)
    requires |st.s| == 255
    ensures NextOutput(st).Ok? ==>
      multiset(NextOutput(st).value.0.s) == multiset(st.s) && NextOutput(st).value.1 in NextOutput(st).value.0.s
  {
    var r := NextOutput(st);
    if r.Ok? {
      var j := (st.j + 1) % 256;
      var k := (st.k + st.s[j]) % 256;
      assert k < 255;
      var s := Swapped(st.s, j, k);
      var x := (s[j] + s[k]) % 256;
      assert r == Ok((Rc4State(s, j, k), s[x]));
      SwapPermutes(st.s, j, k);
    }
  }

  /** Every entry of a state is below 255. */
  lemma StateBelow(s: seq<nat>, v: nat)
    requires IsState(s) && v in s
    ensures v < 255
  {
    assert v in multiset(s);
    assert v in Iota(255);
  }

  /** From a state, every output is an entry of S and so below 255, and there are `count` of them. */
  lemma {:induction false} GeneratedBelow(st: Rc4State, count: nat)
    requires |st.s| == 255 && IsState(st.s)
    ensures Generated(st, count).Ok? ==>
      |Generated(st, count).value| == count &&
      forall n :: 0 <= n < count ==> Generated(st, count).value[n] < 255
    decreases count
  {
    if count > 0 {
      var next := NextOutput(st);
      if next.Ok? {
        var (after, v) := next.value;
        NextOutputPermutes(st);
        assert IsState(after.s);
        GeneratedBelow(after, count - 1);
        StateBelow(after.s, v);
        var rest := Generated(after, count - 1);
        assert Generated(st, count) == Prepend([v], rest);
        if rest.Ok? {
          var out := [v] + rest.value;
          assert Generated(st, count).value == out;
          forall n | 0 <= n < count
            ensures out[n] < 255
          {
            if n > 0 {
              assert out[n] == rest.value[n - 1];
            }
          }
        }
      }
    }
  }

  /** `j` counts up by one per output, so the output after the one with j == 254 fails. */
  lemma {:induction false} GeneratedFails(st: Rc4State, count: nat)
    requires |st.s| == 255 && st.j < 255 && st.j + count >= 255
    ensures Generated(st, count).Err?
    decreases count
  {
    var next := NextOutput(st);
    if next.Ok? {
      GeneratedFails(next.value.0, count - 1);
    }
  }

  /**
   * RC4 keeps S a permutation of 0..254 through the key schedule, every
   * output it returns is below 255, there are `count` of them, and any run of
   * 255 or more outputs fails with IndexError.
   */
  lemma Rc4Shape(key: nat, size: nat, count: nat)
    requires size > 0
    ensures Scrambled(Iota(255), KeyBits(key, size), 0, 0).Ok? ==>
      IsState(Scrambled(Iota(255), KeyBits(key, size), 0, 0).value)
    ensures Rc4Of(key, size, count).Ok? ==>
      |Rc4Of(key, size, count).value| == count &&
      forall n :: 0 <= n < count ==> Rc4Of(key, size, count).value[n] < 255
    ensures count >= 255 ==> Rc4Of(key, size, count).Err?
  {
    var scheduled := Scrambled(Iota(255), KeyBits(key, size), 0, 0);
    ScrambledPermutes(Iota(255), KeyBits(key, size), 0, 0);
    if scheduled.Ok? {
      GeneratedBelow(Rc4State(scheduled.value, 0, 0), count);
      if count >= 255 {
        GeneratedFails(Rc4State(scheduled.value, 0, 0), count);
      }
    }
  }
}
