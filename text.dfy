/**
 * The string primitives the pages rely on, as JavaScript defines them for the
 * inputs that occur here: ASCII `toLowerCase`, `includes`, `slice` and the
 * decimal `toString` of a non-negative integer.
 */
module Text {

  // ---------------------------------------------------------------- lowercase

  predicate IsUpper(c: char) {
    'A' <= c <= 'Z'
  }

  /** ASCII lowercasing of one character; every other character is kept. */
  function LowerChar(c: char): (r: char)
    ensures !IsUpper(r)
    ensures !IsUpper(c) ==> r == c
    ensures IsUpper(c) ==> r as int == c as int + 32
  {
    if IsUpper(c) then (c as int + 32) as char else c
  }

  /** `s.toLowerCase()` restricted to ASCII letters. */
  function Lower(s: string): (r: string)
    ensures |r| == |s|
    ensures forall i :: 0 <= i < |s| ==> r[i] == LowerChar(s[i])
  {
    if s == [] then [] else [LowerChar(s[0])] + Lower(s[1..])
  }

  /** Lowercasing twice is lowercasing once. */
  lemma LowerIdempotent(s: string)
    ensures Lower(Lower(s)) == Lower(s)
  {
    var l := Lower(s);
    assert forall i :: 0 <= i < |l| ==> LowerChar(l[i]) == l[i];
  }

  /** A string without upper-case letters is its own lowercase form. */
  lemma LowerOfLowercase(s: string)
    requires forall i :: 0 <= i < |s| ==> !IsUpper(s[i])
    ensures Lower(s) == s
  {
  }

  /** Lowercasing distributes over concatenation. */
  lemma {:induction false} LowerAppend(a: string, b: string)
    ensures Lower(a + b) == Lower(a) + Lower(b)
  {
    if a == [] {
      assert a + b == b;
    } else {
      assert (a + b)[1..] == a[1..] + b;
      LowerAppend(a[1..], b);
    }
  }

  // ----------------------------------------------------------------- includes

  /** `text.includes(needle)`: `needle` occurs as a contiguous substring of `text`. */
  predicate Contains(text: string, needle: string)
    ensures needle == [] ==> Contains(text, needle)
    ensures Contains(text, needle) ==> |needle| <= |text|
    decreases |text|
  {
    if needle == [] then true
    else if |text| < |needle| then false
    else text[..|needle|] == needle || Contains(text[1..], needle)
  }

  /** An occurrence of `needle` at offset `i` of `text`. */
  ghost predicate OccursAt(text: string, needle: string, i: int) {
    0 <= i && i + |needle| <= |text| && text[i..i + |needle|] == needle
  }

  /** The recursive search agrees with the textbook definition of a substring. */
  lemma {:induction false} ContainsIffOccurs(text: string, needle: string)
    ensures Contains(text, needle) <==> exists i :: OccursAt(text, needle, i)
    decreases |text|
  {
    if needle == [] {
      assert OccursAt(text, needle, 0);
    } else if |text| < |needle| {
    } else {
      ContainsIffOccurs(text[1..], needle);
      if text[..|needle|] == needle {
        assert OccursAt(text, needle, 0);
      } else if Contains(text[1..], needle) {
        var i :| OccursAt(text[1..], needle, i);
        assert text[1..][i..i + |needle|] == text[i + 1..i + 1 + |needle|];
        assert OccursAt(text, needle, i + 1);
      } else {
        forall i | OccursAt(text, needle, i) ensures false {
          if i > 0 {
            assert text[1..][i - 1..i - 1 + |needle|] == text[i..i + |needle|];
            assert OccursAt(text[1..], needle, i - 1);
          }
        }
      }
    }
  }

  /** Text added after a description never hides a substring it already had. */
  lemma ContainsAppend(text: string, more: string, needle: string)
    requires Contains(text, needle)
    ensures Contains(text + more, needle)
  {
    ContainsIffOccurs(text, needle);
    ContainsIffOccurs(text + more, needle);
    var i :| OccursAt(text, needle, i);
    assert (text + more)[i..i + |needle|] == text[i..i + |needle|];
    assert OccursAt(text + more, needle, i);
  }

  /** A needle with a character that the text lacks does not occur in it. */
  lemma AbsentCharRulesOut(text: string, needle: string, j: nat)
    requires j < |needle| && needle[j] !in text
    ensures !Contains(text, needle)
  {
    ContainsIffOccurs(text, needle);
  }

  /** A non-empty needle never occurs in the empty string. */
  lemma EmptyContainsOnlyEmpty(needle: string)
    ensures Contains("", needle) <==> needle == []
  {
  }

  // -------------------------------------------------------------------- slice

  function Min(a: int, b: int): int {
    if a <= b then a else b
  }

  /**
   * `s.slice(from, to)` for non-negative bounds: both are clamped to the
   * length, and an empty string results when they cross.
   */
  function Slice(s: string, from: nat, to: nat): (r: string)
    ensures |r| <= |s|
    ensures |r| == if Min(from, |s|) <= Min(to, |s|) then Min(to, |s|) - Min(from, |s|) else 0
    ensures forall i :: 0 <= i < |r| ==> r[i] == s[from + i]
  {
    var f := Min(from, |s|);
    var t := Min(to, |s|);
    if f <= t then s[f..t] else []
  }

  /**
   * `s.slice(-k)`: the last `k` characters, or the whole string when it is
   * shorter. Since `-0` is `0`, `s.slice(-0)` is the whole string.
   */
  function LastChars(s: string, k: nat): (r: string)
    ensures k >= 1 ==> |r| == Min(k, |s|)
    ensures k == 0 ==> r == s
    ensures r == s[|s| - |r|..]
  {
    if k == 0 || |s| <= k then s else s[|s| - k..]
  }

  // ------------------------------------------------------------ decimal digits

  predicate IsDigit(c: char) {
    '0' <= c <= '9'
  }

  function DigitChar(d: nat): (c: char)
    requires d < 10
    ensures IsDigit(c) && DigitValue(c) == d
  {
    ('0' as int + d) as char
  }

  function Pow10(k: nat): (p: nat)
    ensures p >= 1
  {
    if k == 0 then 1 else 10 * Pow10(k - 1)
  }

  /** `n.toString()` for a non-negative integer: its decimal digits without leading zeros. */
  function DecimalString(n: nat): (s: string)
    ensures |s| >= 1
    ensures forall i :: 0 <= i < |s| ==> IsDigit(s[i])
  {
    if n < 10 then [DigitChar(n)] else DecimalString(n / 10) + [DigitChar(n % 10)]
  }

  /** The value of a decimal digit character. */
  function DigitValue(c: char): (d: nat)
    ensures d < 10
  {
    if IsDigit(c) then c as int - '0' as int else 0
  }

  /** The number a string of decimal digits denotes (leading zeros allowed). */
  function DigitsValue(s: string): nat {
    if s == [] then 0 else 10 * DigitsValue(s[..|s| - 1]) + DigitValue(s[|s| - 1])
  }

  /** Reading the decimal string back gives the number. */
  lemma {:induction false} DecimalRoundTrip(n: nat)
    ensures DigitsValue(DecimalString(n)) == n
  {
    var s := DecimalString(n);
    if n >= 10 {
      DecimalRoundTrip(n / 10);
      assert s[..|s| - 1] == DecimalString(n / 10);
    }
  }

  /** `DecimalString(n)` has more than `k` digits exactly when `n >= 10^k` (for `k >= 1`). */
  lemma {:induction false} DecimalLength(n: nat, k: nat)
    requires k >= 1
    ensures |DecimalString(n)| > k <==> n >= Pow10(k)
  {
    if n >= 10 {
      if k == 1 {
        if n / 10 >= 10 {
          assert |DecimalString(n / 10)| >= 1;
        }
      } else {
        DecimalLength(n / 10, k - 1);
        DivPow10(n, k - 1);
      }
    } else {
      PowAtLeastTen(k);
    }
  }

  lemma {:induction false} PowAtLeastTen(k: nat)
    requires k >= 1
    ensures Pow10(k) >= 10
  {
    if k > 1 { PowAtLeastTen(k - 1); }
  }

  /** `n / 10 >= 10^k` exactly when `n >= 10^(k+1)`. */
  lemma DivPow10(n: nat, k: nat)
    ensures n / 10 >= Pow10(k) <==> n >= Pow10(k + 1)
  {
  }

  lemma {:induction false} MulAtLeast(d: nat, x: nat)
    requires x >= 1
    ensures d * x >= d
  {
    if x > 1 {
      MulAtLeast(d, x - 1);
      assert d * x == d * (x - 1) + d;
    }
  }

  /** The remainder is determined by any decomposition `n == d * q + r` with `0 <= r < d`. */
  lemma ModUnique(n: nat, d: nat, q: nat, r: nat)
    requires d > 0 && r < d && n == d * q + r
    ensures n % d == r
  {
    var q', r' := n / d, n % d;
    assert n == d * q' + r';
    if q' < q {
      MulAtLeast(d, q - q');
    } else if q' > q {
      MulAtLeast(d, q' - q);
    }
  }

  /** Peeling the last decimal digit off a remainder modulo `10 * p`. */
  lemma ModTenTimes(n: nat, p: nat)
    requires p > 0
    ensures n % (10 * p) == 10 * ((n / 10) % p) + n % 10
  {
    var a, b := (n / 10) / p, (n / 10) % p;
    assert n / 10 == p * a + b;
    assert n == 10 * (n / 10) + n % 10;
    assert 10 * (p * a + b) == (10 * p) * a + 10 * b;
    ModUnique(n, 10 * p, a, 10 * b + n % 10);
  }

  /** Appending a digit multiplies the value by ten and adds the digit. */
  lemma DigitsValueSnoc(s: string, c: char)
    ensures DigitsValue(s + [c]) == 10 * DigitsValue(s) + DigitValue(c)
  {
    assert (s + [c])[..|s|] == s;
  }

  /** The value of a suffix grows by one digit of `n` as the modulus grows tenfold. */
  lemma SuffixStep(n: nat, p: nat, low: string)
    requires p > 0 && DigitsValue(low) == (n / 10) % p
    ensures DigitsValue(low + [DigitChar(n % 10)]) == n % (10 * p)
  {
    DigitsValueSnoc(low, DigitChar(n % 10));
    ModTenTimes(n, p);
  }

  /** Taking the last `k` characters after appending one character. */
  lemma SuffixSnoc(s: string, c: char, k: nat)
    requires 1 <= k <= |s| + 1
    ensures (s + [c])[|s| + 1 - k..] == s[|s| - (k - 1)..] + [c]
  {
  }

  /** The last `k` digits of `n` denote `n mod 10^k`. */
  lemma {:induction false} DecimalSuffix(n: nat, k: nat)
    requires k <= |DecimalString(n)|
    ensures DigitsValue(DecimalString(n)[|DecimalString(n)| - k..]) == n % Pow10(k)
  {
    var s := DecimalString(n);
    if k == 0 {
      assert s[|s| - k..] == [];
    } else if n < 10 {
      assert s[|s| - k..] == [DigitChar(n)];
      DigitsValueSnoc([], DigitChar(n));
    } else {
      var hi := DecimalString(n / 10);
      var c := DigitChar(n % 10);
      assert s == hi + [c];
      SuffixSnoc(hi, c, k);
      DecimalSuffix(n / 10, k - 1);
      SuffixStep(n, Pow10(k - 1), hi[|hi| - (k - 1)..]);
      assert Pow10(k) == 10 * Pow10(k - 1);
    }
  }
}
