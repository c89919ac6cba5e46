/**
 * The few pieces of Java's int and String semantics the model needs:
 * 32-bit wrap-around, division that truncates toward zero, Integer.toString,
 * String.lastIndexOf, String.contains and an ASCII toLowerCase.
 */
module JavaLang {

  const TWO_POW_31: int := 0x8000_0000
  const TWO_POW_32: int := 0x1_0000_0000

  predicate IsInt32(n: int)
  {
    -TWO_POW_31 <= n < TWO_POW_31
  }

  /** The Java `int` that the mathematical integer n wraps to. */
  function Wrap32(n: int): (r: int)
    ensures IsInt32(r)
    ensures IsInt32(n) ==> r == n
    ensures (r - n) % TWO_POW_32 == 0
  {
    (n + TWO_POW_31) % TWO_POW_32 - TWO_POW_31
  }

  /** Java's `n / 2` on ints: the half truncated toward zero. */
  function Half(n: int): (q: int)
    ensures n >= 0 ==> 0 <= n - 2 * q <= 1
    ensures n < 0 ==> -1 <= n - 2 * q <= 0
  {
    if n >= 0 then n / 2 else -((-n) / 2)
  }

  /** The decimal digits of a natural number, most significant first. */
  function Digits(n: nat): (s: string)
    ensures |s| > 0
    ensures forall i :: 0 <= i < |s| ==> '0' <= s[i] <= '9'
  {
    var d := [(n % 10) as char + '0'];
    if n < 10 then d else Digits(n / 10) + d
  }

  /** Integer.toString, which is also what `"..." + n` appends. */
  function IntToString(n: int): (s: string)
    ensures |s| > 0
    ensures n >= 0 ==> s == Digits(n)
    ensures n < 0 ==> s == "-" + Digits(-n)
  {
    if n >= 0 then Digits(n) else "-" + Digits(-n)
  }

  /** The number a text of decimal digits denotes, most significant digit first. */
  function DecimalValue(s: string): nat
  {
    if |s| == 0 then 0
    else DecimalValue(s[..|s| - 1]) * 10 + (if '0' <= s[|s| - 1] <= '9' then s[|s| - 1] as int - '0' as int else 0)
  }

  /** Reading the digits of n back gives n. */
  lemma {:induction false} DigitsValue(n: nat)
    ensures DecimalValue(Digits(n)) == n
    decreases n
  {
    var s := Digits(n);
    assert s[..|s| - 1] == if n < 10 then [] else Digits(n / 10);
    if n >= 10 {
      DigitsValue(n / 10);
    }
  }

  /** The text of n starts with a minus sign exactly when n is negative. */
  lemma SignOfText(n: int)
    ensures IntToString(n)[0] == '-' <==> n < 0
  {
    if n >= 0 {
      assert IntToString(n)[0] == Digits(n)[0];
    }
  }

  /** Integer.toString is one-to-one: different ints give different texts. */
  lemma {:induction false} IntToStringInjective(a: int, b: int)
    requires IntToString(a) == IntToString(b)
    ensures a == b
  {
    SignOfText(a);
    SignOfText(b);
    if a >= 0 {
      DigitsValue(a);
      DigitsValue(b);
    } else {
      assert Digits(-a) == IntToString(a)[1..];
      assert Digits(-b) == IntToString(b)[1..];
      DigitsValue(-a);
      DigitsValue(-b);
    }
  }

  /** String.lastIndexOf(c): the last position holding c, or -1. */
  function LastIndexOf(s: string, c: char): (k: int)
    ensures -1 <= k < |s|
    ensures k == -1 <==> c !in s
    ensures k >= 0 ==> s[k] == c && c !in s[k + 1..]
  {
    if |s| == 0 then -1
    else if s[|s| - 1] == c then |s| - 1
    else
      var k := LastIndexOf(s[..|s| - 1], c);
      assert s[..|s| - 1] + [s[|s| - 1]] == s;
      assert k >= 0 ==> s[k + 1..] == s[k + 1..|s| - 1] + [s[|s| - 1]];
      k
  }

  /** A position holding c with no c after it is the one lastIndexOf finds. */
  lemma LastIndexOfUnique(s: string, c: char, k: int)
    requires 0 <= k < |s| && s[k] == c && c !in s[k + 1..]
    ensures LastIndexOf(s, c) == k
  {
  }

  /** `small` occurs in `s` starting at position i. */
  ghost predicate OccursAt(small: string, s: string, i: int)
  {
    0 <= i && i + |small| <= |s| && s[i..i + |small|] == small
  }

  /** String.contains: `small` is a prefix of `s` or of one of its suffixes. */
  function Contains(s: string, small: string): bool
  {
    small <= s || (|s| > 0 && Contains(s[1..], small))
  }

  /** Contains holds exactly when some position of `s` starts a copy of `small`. */
  lemma {:induction false} ContainsMeaning(s: string, small: string)
    ensures Contains(s, small) <==> exists i :: OccursAt(small, s, i)
  {
    if small <= s {
      assert OccursAt(small, s, 0);
    } else if |s| == 0 {
      assert forall i :: !OccursAt(small, s, i);
    } else {
      ContainsMeaning(s[1..], small);
      if Contains(s[1..], small) {
        var i :| OccursAt(small, s[1..], i);
        ShiftOccurrence(small, s, i + 1);
      } else {
        forall i | OccursAt(small, s, i) ensures false {
          if i > 0 {
            ShiftOccurrence(small, s, i);
          }
        }
      }
    }
  }

  /** An occurrence at i > 0 in s is one at i - 1 in s without its first character. */
  lemma ShiftOccurrence(small: string, s: string, i: int)
    requires 0 < i && |s| > 0
    ensures OccursAt(small, s, i) <==> OccursAt(small, s[1..], i - 1)
  {
    if i + |small| <= |s| {
      assert s[1..][i - 1..i - 1 + |small|] == s[i..i + |small|];
    }
  }

  /** Character.toLowerCase, restricted to ASCII letters. */
  function LowerChar(c: char): (d: char)
    ensures 'A' <= c <= 'Z' ==> d != c && 'a' <= d <= 'z'
    ensures !('A' <= c <= 'Z') ==> d == c
  {
    if 'A' <= c <= 'Z' then (c as int - 'A' as int + 'a' as int) as char else c
  }

  /** String.toLowerCase on ASCII text. */
  function ToLower(s: string): (r: string)
    ensures |r| == |s|
    ensures forall i :: 0 <= i < |s| ==> r[i] == LowerChar(s[i])
    ensures forall i :: 0 <= i < |r| ==> !('A' <= r[i] <= 'Z')
    ensures forall i :: 0 <= i < |s| ==> (r[i] == s[i] <==> !('A' <= s[i] <= 'Z'))
  {
    seq(|s|, i requires 0 <= i < |s| => LowerChar(s[i]))
  }

  /** String.replace(from, to) for single characters. */
  function ReplaceChar(s: string, from: char, to: char): (r: string)
    ensures |r| == |s|
    ensures forall i :: 0 <= i < |s| ==> r[i] == (if s[i] == from then to else s[i])
    ensures from != to ==> from !in r
  {
    seq(|s|, i requires 0 <= i < |s| => if s[i] == from then to else s[i])
  }
}
