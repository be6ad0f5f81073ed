/**
 * Python `str` semantics on `seq<char>`: the `<` order that `sort_values` uses on
 * text columns, the `in` substring test, and decimal digits.
 */
module Strings {

  /** Python `a < b` on str: first differing code point decides; a proper prefix is smaller. */
  predicate Less(a: string, b: string)
  {
    0 < |b| && (|a| == 0 || a[0] < b[0] || (a[0] == b[0] && Less(a[1..], b[1..])))
  }

  /** Python `a <= b` on str. */
  predicate LessEq(a: string, b: string)
  {
    a == b || Less(a, b)
  }

  lemma {:induction false} LessIrreflexive(a: string)
    ensures !Less(a, a)
  {
    if 0 < |a| {
      LessIrreflexive(a[1..]);
    }
  }

  lemma {:induction false} LessTransitive(a: string, b: string, c: string)
    requires Less(a, b) && Less(b, c)
    ensures Less(a, c)
  {
    if 0 < |a| && a[0] == b[0] && b[0] == c[0] {
      LessTransitive(a[1..], b[1..], c[1..]);
    }
  }

  /** Any two strings are equal or ordered one way or the other. */
  lemma {:induction false} LessTrichotomy(a: string, b: string)
    ensures Less(a, b) || a == b || Less(b, a)
  {
    if 0 < |a| && 0 < |b| && a[0] == b[0] {
      LessTrichotomy(a[1..], b[1..]);
      if a[1..] == b[1..] {
        assert a == [a[0]] + a[1..] && b == [b[0]] + b[1..];
      }
    }
  }

  /** `<=` on str is a total order; in particular a total preorder, which sorting needs. */
  lemma LessEqTotalOrder(a: string, b: string, c: string)
    ensures LessEq(a, b) || LessEq(b, a)
    ensures LessEq(a, b) && LessEq(b, c) ==> LessEq(a, c)
    ensures LessEq(a, b) && LessEq(b, a) ==> a == b
  {
    LessTrichotomy(a, b);
    if Less(a, b) && Less(b, c) {
      LessTransitive(a, b, c);
    }
    if Less(a, b) && Less(b, a) {
      LessTransitive(a, b, a);
      LessIrreflexive(a);
    }
  }

  /**
   * Comparing two concatenations whose first parts have the same length: the first
   * parts decide unless they are equal. This is what makes fixed-width fields compare
   * field by field.
   */
  lemma {:induction false} LessConcat(u1: string, v1: string, u2: string, v2: string)
    requires |u1| == |u2|
    ensures Less(u1 + v1, u2 + v2) <==> Less(u1, u2) || (u1 == u2 && Less(v1, v2))
  {
    if |u1| == 0 {
      assert u1 + v1 == v1 && u2 + v2 == v2;
    } else {
      assert (u1 + v1)[1..] == u1[1..] + v1;
      assert (u2 + v2)[1..] == u2[1..] + v2;
      LessConcat(u1[1..], v1, u2[1..], v2);
      if u1[0] == u2[0] && u1[1..] == u2[1..] {
        assert u1 == [u1[0]] + u1[1..] && u2 == [u2[0]] + u2[1..];
      }
    }
  }

  /** Python `t in s` for str: `t` occurs as a contiguous piece of `s`. */
  predicate Contains(s: string, t: string)
    decreases |s|
  {
    |t| <= |s| && (s[..|t|] == t || Contains(s[1..], t))
  }

  /** `t` sits in `s` starting at position `i`. */
  predicate OccursAt(s: string, t: string, i: int)
  {
    0 <= i <= |s| - |t| && s[i..i + |t|] == t
  }

  /** The recursive test agrees with "occurs at some position". */
  lemma {:induction false} ContainsAt(s: string, t: string)
    ensures Contains(s, t) <==> exists i :: OccursAt(s, t, i)
  {
    if |t| <= |s| && s[..|t|] != t {
      assert 0 < |s|;
      ContainsAt(s[1..], t);
      if Contains(s[1..], t) {
        var i :| OccursAt(s[1..], t, i);
        assert OccursAt(s, t, i + 1);
      }
      if exists i :: OccursAt(s, t, i) {
        var i :| OccursAt(s, t, i);
        assert i != 0;
        assert OccursAt(s[1..], t, i - 1);
      }
    } else if |t| <= |s| {
      assert OccursAt(s, t, 0);
    }
  }

  /** A text that lacks the first character of `t` cannot contain `t`. */
  lemma {:induction false} ContainsNeedsHead(s: string, t: string)
    requires 0 < |t| && t[0] !in s
    ensures !Contains(s, t)
  {
    if |t| <= |s| {
      assert s[0] in s;
      ContainsNeedsHead(s[1..], t);
    }
  }

  predicate IsDigit(c: char)
  {
    '0' <= c <= '9'
  }

  predicate AllDigits(s: string)
  {
    forall i :: 0 <= i < |s| ==> IsDigit(s[i])
  }

  /** The character for a digit value 0..9. */
  function DigitChar(n: int): (c: char)
    requires 0 <= n < 10
    ensures IsDigit(c)
  {
    ('0' as int + n) as char
  }

  /** The value 0..9 of a digit character. */
  function DigitValue(c: char): (n: int)
    requires IsDigit(c)
    ensures 0 <= n < 10 && DigitChar(n) == c
  {
    c as int - '0' as int
  }

  /** The value of a string of decimal digits, most significant first. */
  function DigitsValue(s: string): (n: nat)
    requires AllDigits(s)
  {
    if s == [] then 0 else 10 * DigitsValue(s[..|s| - 1]) + DigitValue(s[|s| - 1])
  }

  /** A two-digit string reads as tens and units. */
  lemma DigitsValueTwo(s: string)
    requires |s| == 2 && AllDigits(s)
    ensures DigitsValue(s) == 10 * DigitValue(s[0]) + DigitValue(s[1])
  {
    var h := s[..1];
    assert h[..0] == [] && h[0] == s[0];
    assert DigitsValue(h) == 10 * DigitsValue(h[..0]) + DigitValue(h[0]);
  }
}
