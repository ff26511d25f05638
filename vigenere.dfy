/**
 * The letter arithmetic of `encrypt` in viginere.py (viginere.py:45-54): the
 * key is inverted letter by letter when decrypting, then each text character
 * is shifted by the key letter at the same position modulo the key length.
 * The key and the decrypt choice, which the program reads from the console,
 * are parameters, and the result is returned instead of printed.  Python's
 * `%` by 26 agrees with Dafny's on every integer.
 */
module Vigenere {
  import opened Outcomes
  import opened Bits

  predicate IsUpper(c: char)
  {
    'A' <= c <= 'Z'
  }

  predicate AllUpper(s: string)
  {
    forall i :: 0 <= i < |s| ==> IsUpper(s[i])
  }

  /** `chr((65 - ord(k)) % 26 + 65)`: the key letter that shifts back by `k`. */
  function InvertLetter(k: char): (r: char)
    ensures IsUpper(r)
  {
    ((65 - k as int) % 26 + 65) as char
  }

  /** `chr((ord(c) + ord(k) - 2*65) % 26 + 65)`. */
  function ShiftLetter(c: char, k: char): (r: char)
    ensures IsUpper(r)
  {
    ((c as int + k as int - 2 * 65) % 26 + 65) as char
  }

  function InvertedKey(key: string): (r: string)
    ensures |r| == |key| && AllUpper(r)
  {
    seq(|key|, i requires 0 <= i < |key| => InvertLetter(key[i]))
  }

  /** The text shifted by the key, repeated cyclically. */
  function Shifted(text: string, key: string): (r: string)
    requires |key| > 0 || |text| == 0
    ensures |r| == |text| && AllUpper(r)
  {
    seq(|text|, i requires 0 <= i < |text| => ShiftLetter(text[i], key[i % |key|]))
  }

  /**
   * What `encrypt` prints for `cipher`, `key` and the choice `decrypt`: an
   * empty key with a non-empty text raises ZeroDivisionError at `i % len(key)`.
   */
  function VigenereOf(cipher: string, key: string, decrypt: bool): (r: Result<string>)
  {
    var k := if decrypt then InvertedKey(key) else key;
    if |cipher| > 0 && |k| == 0 then Err(DivisionByZero) else Ok(Shifted(cipher, k))
  }

  /** The two loops of `encrypt` (viginere.py:46-54). */
  method Encrypt(cipher: string, key: string, decrypt: bool) returns (r: Result<string>)
    ensures r == VigenereOf(cipher, key, decrypt)
  {
    var k := key;
    if decrypt {
      var temp := "";
      for i := 0 to |k|
        invariant temp == InvertedKey(key)[..i]
      {
        temp := temp + [InvertLetter(k[i])];
      }
      assert temp == InvertedKey(key);
      k := temp;
    }
    var out := "";
    for i := 0 to |cipher|
      invariant |k| == 0 ==> i == 0 && out == ""
      invariant |k| > 0 ==> out == Shifted(cipher, k)[..i]
    {
      if |k| == 0 {
        return Err(DivisionByZero);
      }
      out := out + [ShiftLetter(cipher[i], k[i % |k|])];
    }
    if |cipher| > 0 && |k| == 0 {
      return Err(DivisionByZero);
    }
    assert out == Shifted(cipher, k);
    return Ok(out);
  }

  /**
   * The result has the length of the text, is all capitals whatever the
   * input, and fails exactly for an empty key with a non-empty text.
   */
  lemma VigenereShape(cipher: string, key: string, decrypt: bool)
    ensures VigenereOf(cipher, key, decrypt).Err? <==> |cipher| > 0 && |key| == 0
    ensures VigenereOf(cipher, key, decrypt).Err? ==> VigenereOf(cipher, key, decrypt).error == DivisionByZero
    ensures VigenereOf(cipher, key, decrypt).Ok? ==>
      |VigenereOf(cipher, key, decrypt).value| == |cipher| && AllUpper(VigenereOf(cipher, key, decrypt).value)
  {
  }

  /** An inverted capital shifts by (26 - (k - 65)) mod 26. */
  lemma InvertLetterShift(k: char)
    requires IsUpper(k)
    ensures InvertLetter(k) as int - 65 == (26 - (k as int - 65)) % 26
  {
  }

  /** The key acts cyclically: repeating it changes nothing. */
  lemma ShiftedKeyRepeats(text: string, key: string)
    requires |key| > 0
    ensures Shifted(text, key + key) == Shifted(text, key)
  {
    var n := |key|;
    forall i | 0 <= i < |text| ensures (key + key)[i % (2 * n)] == key[i % n] {
      var r := i % (2 * n);
      var q := i / (2 * n);
      DivMod(i, 2 * n);
      DoubleRegroup(n, q);
      if r < n {
        DivModUnique(i, n, 2 * q, r);
      } else {
        DivModUnique(i, n, 2 * q + 1, r - n);
      }
    }
  }

  /** Shifting a capital by `k` and then by the inverted `k` gives it back. */
  lemma ShiftLetterInverse(c: char, k: char)
    requires IsUpper(c) && IsUpper(k)
    ensures ShiftLetter(ShiftLetter(c, k), InvertLetter(k)) == c
  {
    var u, v := c as int - 65, k as int - 65;
    var x, y := (u + v) % 26, (-v) % 26;
    assert ShiftLetter(c, k) as int == x + 65;
    assert InvertLetter(k) as int == y + 65;
    ShiftBack(u, v, x, y);
  }

  /** Adding `v` and then `-v` modulo 26 is the identity on 0..25. */
  lemma ShiftBack(u: int, v: int, x: int, y: int)
    requires 0 <= u < 26 && 0 <= v < 26
    requires x == (u + v) % 26 && y == (-v) % 26
    ensures (x + y) % 26 == u
  {
    if u + v < 26 {
      DivModUnique(u + v, 26, 0, u + v);
    } else {
      DivModUnique(u + v, 26, 1, u + v - 26);
    }
    if v == 0 {
      DivModUnique(0, 26, 0, 0);
    } else {
      DivModUnique(-v, 26, -1, 26 - v);
    }
    if x + y < 26 {
      DivModUnique(x + y, 26, 0, x + y);
    } else {
      DivModUnique(x + y, 26, 1, x + y - 26);
    }
  }

  /** For capitals and a non-empty capital key, decrypting undoes encrypting. */
  lemma VigenereRoundTrip(text: string, key: string)
    requires AllUpper(text) && AllUpper(key) && |key| > 0
    ensures VigenereOf(text, key, false).Ok?
    ensures VigenereOf(VigenereOf(text, key, false).value, key, true) == Ok(text)
  {
    var e := Shifted(text, key);
    forall i | 0 <= i < |text| ensures Shifted(e, InvertedKey(key))[i] == text[i] {
      ShiftLetterInverse(text[i], key[i % |key|]);
    }
    assert Shifted(e, InvertedKey(key)) == text;
  }

  /** A key of only 'A's leaves capitals unchanged. */
  lemma KeyOfAIsIdentity(text: string, key: string)
    requires AllUpper(text) && |key| > 0 && forall i :: 0 <= i < |key| ==> key[i] == 'A'
    ensures VigenereOf(text, key, false) == Ok(text)
  {
    forall i | 0 <= i < |text| ensures Shifted(text, key)[i] == text[i] {
      assert key[i % |key|] == 'A';
    }
    assert Shifted(text, key) == text;
  }

  lemma DoubleRegroup(n: int, q: int)
    ensures q * (2 * n) == n * (2 * q) && q * (2 * n) + n == n * (2 * q + 1)
  {
  }
}
