/**
 * Akka's compact base-64 rendering of a 64-bit integer (Akka.Util.Base64Encoding).
 *
 * This is not the base64 of RFC 4648: it writes the 6-bit digits of the number,
 * least significant digit first, over the alphabet a-z A-Z 0-9 + ~, and stops
 * as soon as the remaining value is zero (but always writes at least one digit).
 *
 * A C# `long` is modelled as an `int` in [MinLong, MaxLong]. For a non-negative
 * `next`, `next & 63` is `next % 64` and `next >> 6` (an arithmetic shift) is
 * `next / 64`; for a negative `next` the shift is floor division by 64, which is
 * what Dafny's `/` computes for a positive divisor.
 */
module Base64Encoding {

  import opened Long

  /** The 64 digit characters; digit d is written as Base64Chars[d]. */
  const Base64Chars: string := "abcdefghijklmnopqrstuvwxyzABCDEFGHIJKLMNOPQRSTUVWXYZ0123456789+~"

  // ---------------------------------------------------------------------------
  // The alphabet
  // ---------------------------------------------------------------------------

  /** The character code of digit d, by ranges of the alphabet. */
  function DigitCode(d: nat): int
    requires d < 64
  {
    if d < 26 then 'a' as int + d
    else if d < 52 then 'A' as int + (d - 26)
    else if d < 62 then '0' as int + (d - 52)
    else if d == 62 then '+' as int
    else '~' as int
  }

  /** The digit a character stands for, or -1 if it is not in the alphabet. */
  function DigitValue(c: char): int {
    if 'a' <= c <= 'z' then c as int - 'a' as int
    else if 'A' <= c <= 'Z' then c as int - 'A' as int + 26
    else if '0' <= c <= '9' then c as int - '0' as int + 52
    else if c == '+' then 62
    else if c == '~' then 63
    else -1
  }

  /** The alphabet literal is the four ranges a-z, A-Z, 0-9 and then '+', '~'. */
  lemma AlphabetCodes()
    ensures |Base64Chars| == 64
    ensures forall d :: 0 <= d < 64 ==> Base64Chars[d] as int == DigitCode(d)
  {
    var low := LowHalf();
    var high := HighHalf();
    assert Base64Chars == low + high;
    forall d | 0 <= d < 64
      ensures Base64Chars[d] as int == DigitCode(d)
    {
      if d < 32 {
        assert Base64Chars[d] == low[d];
      } else {
        assert Base64Chars[d] == high[d - 32];
      }
    }
  }

  /** The first 32 characters of the alphabet, checked one range at a time. */
  lemma LowHalf() returns (low: string)
    ensures low == "abcdefghijklmnopqrstuvwxyzABCDEF"
    ensures |low| == 32 && forall d :: 0 <= d < 32 ==> low[d] as int == DigitCode(d)
  {
    low := "abcdefghijklmnopqrstuvwxyzABCDEF";
  }

  /** The last 32 characters of the alphabet. */
  lemma HighHalf() returns (high: string)
    ensures high == "GHIJKLMNOPQRSTUVWXYZ0123456789+~"
    ensures |high| == 32 && forall d :: 0 <= d < 32 ==> high[d] as int == DigitCode(d + 32)
  {
    high := "GHIJKLMNOPQRSTUVWXYZ0123456789+~";
  }

  /** Looking up digit d in the alphabet and reading it back gives d. */
  lemma DigitValueOfAlphabet(d: nat)
    requires d < 64
    ensures DigitValue(Base64Chars[d]) == d
  {
    AlphabetCodes();
  }

  /** Every character with a digit value is the alphabet entry of that digit. */
  lemma AlphabetOfDigitValue(c: char)
    requires 0 <= DigitValue(c)
    ensures DigitValue(c) < 64 && Base64Chars[DigitValue(c)] == c
  {
    AlphabetCodes();
    assert Base64Chars[DigitValue(c)] as int == c as int;
  }

  /** The alphabet holds 64 pairwise different characters, and exactly the characters
      that DigitValue maps to a digit. */
  lemma AlphabetIsDigitSet(c: char)
    ensures |Base64Chars| == 64
    ensures forall i, j :: 0 <= i < j < 64 ==> Base64Chars[i] != Base64Chars[j]
    ensures c in Base64Chars <==> 0 <= DigitValue(c)
  {
    AlphabetCodes();
    forall i, j | 0 <= i < j < 64
      ensures Base64Chars[i] != Base64Chars[j]
    {
      DigitValueOfAlphabet(i);
      DigitValueOfAlphabet(j);
    }
    if c in Base64Chars {
      var d :| 0 <= d < 64 && Base64Chars[d] == c;
      DigitValueOfAlphabet(d);
    }
    if 0 <= DigitValue(c) {
      AlphabetOfDigitValue(c);
    }
  }

  // ---------------------------------------------------------------------------
  // Specification of the encoding
  // ---------------------------------------------------------------------------

  /** The digits of n, least significant first, with no digit after the last
      non-zero one (and the single digit 'a' for zero). */
  function Encode(n: nat): (s: string)
    ensures |s| >= 1
    ensures forall i :: 0 <= i < |s| ==> s[i] in Base64Chars
    decreases n
  {
    [Base64Chars[n % 64]] + (if n / 64 == 0 then [] else Encode(n / 64))
  }

  /** The number a digit string stands for: sum of DigitValue(s[i]) * 64^i. */
  function Decode(s: string): int {
    if s == [] then 0 else DigitValue(s[0]) + 64 * Decode(s[1..])
  }

  function Pow64(k: nat): nat {
    if k == 0 then 1 else 64 * Pow64(k - 1)
  }

  /** The strings Encode produces: digits only, and no redundant high-order 'a'. */
  predicate IsCanonical(s: string) {
    && |s| >= 1
    && (forall i :: 0 <= i < |s| ==> 0 <= DigitValue(s[i]))
    && (s[|s| - 1] == 'a' ==> s == "a")
  }

  // ---------------------------------------------------------------------------
  // The loop of Base64Encode(this long value)
  // ---------------------------------------------------------------------------

  /** Base64Encode(long): a do-while loop appending one digit per iteration.
      Only non-negative values are accepted: for a negative value the arithmetic
      shift never reaches 0 and the loop does not terminate (see
      NegativeNeverReachesZero). */
  method Base64Encode(value: int) returns (s: string)
    requires 0 <= value <= MaxLong
    ensures s == Encode(value)
  {
    var sb: string := [];
    var next := value;
    while true
      invariant 0 <= next
      invariant sb + Encode(next) == Encode(value)
      decreases next
    {
      var index := next % 64;
      ghost var rest := if next / 64 == 0 then [] else Encode(next / 64);
      assert Encode(next) == [Base64Chars[index]] + rest;
      assert sb + Encode(next) == (sb + [Base64Chars[index]]) + rest;
      sb := sb + [Base64Chars[index]];
      next := next / 64;
      if next == 0 {
        break;
      }
    }
    s := sb;
  }

  // ---------------------------------------------------------------------------
  // Properties of the encoding
  // ---------------------------------------------------------------------------

  /** Zero is written as the single digit "a". */
  lemma EncodeZero()
    ensures Encode(0) == "a"
  {
    AlphabetCodes();
  }

  /** Reading the digits back, least significant first, gives the value. */
  lemma {:induction false} DecodeEncode(n: nat)
    ensures Decode(Encode(n)) == n
    decreases n
  {
    var s := Encode(n);
    DigitValueOfAlphabet(n % 64);
    assert s[1..] == (if n / 64 == 0 then [] else Encode(n / 64));
    if n / 64 != 0 {
      DecodeEncode(n / 64);
    }
  }

  /** Different non-negative values have different encodings. */
  lemma EncodeInjective(a: nat, b: nat)
    ensures Encode(a) == Encode(b) ==> a == b
  {
    DecodeEncode(a);
    DecodeEncode(b);
  }

  /** Every canonical digit string is the encoding of exactly the value it denotes,
      so Encode is a bijection between non-negative values and canonical strings. */
  lemma {:induction false} EncodeDecode(s: string)
    requires IsCanonical(s)
    ensures Decode(s) >= 0 && Encode(Decode(s)) == s
    decreases |s|
  {
    var d := DigitValue(s[0]);
    AlphabetOfDigitValue(s[0]);
    if |s| == 1 {
      assert Decode(s) == d;
    } else {
      var rest := s[1..];
      assert rest[|rest| - 1] == s[|s| - 1];
      assert IsCanonical(rest);
      EncodeDecode(rest);
      var m := Decode(rest);
      if m == 0 {
        EncodeZero();
        assert false;
      }
      var n := d + 64 * m;
      assert Decode(s) == n;
      assert n % 64 == d && n / 64 == m;
      assert Encode(n) == [s[0]] + rest;
    }
  }

  /** Encode's output is canonical: its last (highest) digit is 'a' only for zero. */
  lemma {:induction false} EncodeIsCanonical(n: nat)
    ensures IsCanonical(Encode(n))
    ensures Encode(n)[|Encode(n)| - 1] == 'a' ==> n == 0
    decreases n
  {
    var s := Encode(n);
    AlphabetCodes();
    forall i | 0 <= i < |s|
      ensures 0 <= DigitValue(s[i])
    {
      var d :| 0 <= d < 64 && Base64Chars[d] == s[i];
      DigitValueOfAlphabet(d);
    }
    if n / 64 == 0 {
      if s[0] == 'a' {
        DigitValueOfAlphabet(n);
      }
    } else {
      EncodeIsCanonical(n / 64);
      assert s[|s| - 1] == Encode(n / 64)[|Encode(n / 64)| - 1];
    }
  }

  /** The encoding has exactly as many digits as n has in base 64. */
  lemma {:induction false} EncodeLength(n: nat)
    ensures n < Pow64(|Encode(n)|)
    ensures |Encode(n)| > 1 ==> Pow64(|Encode(n)| - 1) <= n
    decreases n
  {
    if n / 64 != 0 {
      var m := n / 64;
      EncodeLength(m);
      var k := |Encode(m)|;
      assert |Encode(n)| == k + 1;
      assert n < 64 * (m + 1);
      assert 64 * (m + 1) <= 64 * Pow64(k);
      if k > 1 {
        assert 64 * Pow64(k - 1) <= 64 * m;
      }
    }
  }

  lemma {:induction false} Pow64Monotone(i: nat, j: nat)
    requires i <= j
    ensures Pow64(i) <= Pow64(j)
    decreases j
  {
    if i < j {
      Pow64Monotone(i, j - 1);
    }
  }

  /** A non-negative long has at most 11 base-64 digits. */
  lemma EncodeOfLongAtMost11(n: nat)
    requires n <= MaxLong
    ensures |Encode(n)| <= 11
  {
    EncodeLength(n);
    if |Encode(n)| > 11 {
      Pow64Monotone(11, |Encode(n)| - 1);
    }
  }

  // ---------------------------------------------------------------------------
  // Termination of the loop
  // ---------------------------------------------------------------------------

  /** The value of `next` after k iterations of the loop started at x. */
  function Shifted(x: int, k: nat): int
    decreases k
  {
    if k == 0 then x else Shifted(x / 64, k - 1)
  }

  /** From a non-negative value the loop runs exactly |Encode(x)| iterations:
      `next` stays non-zero until then and is zero afterwards. */
  lemma {:induction false} NonNegativeReachesZero(x: nat)
    ensures Shifted(x, |Encode(x)|) == 0
    ensures forall k :: 1 <= k < |Encode(x)| ==> Shifted(x, k) > 0
    decreases x
  {
    if x / 64 != 0 {
      NonNegativeReachesZero(x / 64);
      forall k | 1 <= k < |Encode(x)|
        ensures Shifted(x, k) > 0
      {
        assert Shifted(x, k) == Shifted(x / 64, k - 1);
      }
    }
  }

  /** From a negative value `next` stays negative for ever (-1 >> 6 == -1), so the
      loop's exit test `next != 0` never fails. */
  lemma {:induction false} NegativeNeverReachesZero(x: int, k: nat)
    requires x < 0
    ensures Shifted(x, k) < 0
    decreases k
  {
    if k > 0 {
      NegativeNeverReachesZero(x / 64, k - 1);
    }
  }
}
