/**
 * The per-cell text transforms of the cleaning run: the PE pattern strip
 * `[^0-9.]+ -> ''`, literal `str.replace(unit, '')`, and Python's `float(text)`
 * on the remainder (values as exact rationals).
 */
module NumericText {
  import opened Wrappers
  import opened Sequences
  import opened Strings

  /** The characters the PE pattern `[^0-9.]+` leaves alone. */
  predicate IsNumeric(c: char)
  {
    IsDigit(c) || c == '.'
  }

  predicate AllNumeric(s: string)
  {
    forall i :: 0 <= i < |s| ==> IsNumeric(s[i])
  }

  /** `str.replace(r'[^0-9.]+', '', regex=True)`: every character outside `[0-9.]` is dropped. */
  function KeepNumeric(s: string): (r: string)
    ensures |r| <= |s|
    ensures AllNumeric(r)
  {
    if s == [] then [] else (if IsNumeric(s[0]) then [s[0]] else []) + KeepNumeric(s[1..])
  }

  /** Stripping works piece by piece: kept characters stay in their original order. */
  lemma {:induction false} KeepNumericConcat(a: string, b: string)
    ensures KeepNumeric(a + b) == KeepNumeric(a) + KeepNumeric(b)
  {
    if a != [] {
      var h := if IsNumeric(a[0]) then [a[0]] else [];
      assert (a + b)[0] == a[0] && (a + b)[1..] == a[1..] + b;
      KeepNumericConcat(a[1..], b);
      calc {
        KeepNumeric(a + b);
        h + KeepNumeric(a[1..] + b);
        h + (KeepNumeric(a[1..]) + KeepNumeric(b));
        (h + KeepNumeric(a[1..])) + KeepNumeric(b);
      }
    } else {
      assert a + b == b;
    }
  }

  /** Each digit and point survives as often as it occurred; nothing else survives. */
  lemma {:induction false} KeepNumericCounts(s: string, c: char)
    ensures multiset(KeepNumeric(s))[c] == if IsNumeric(c) then multiset(s)[c] else 0
  {
    if s != [] {
      KeepNumericCounts(s[1..], c);
      assert s == [s[0]] + s[1..];
    }
  }

  /** Text made only of digits and points is left as it is. */
  lemma {:induction false} KeepNumericFixes(s: string)
    requires AllNumeric(s)
    ensures KeepNumeric(s) == s
  {
    if s != [] {
      KeepNumericFixes(s[1..]);
    }
  }

  /** Stripping twice is stripping once. */
  lemma KeepNumericIdempotent(s: string)
    ensures KeepNumeric(KeepNumeric(s)) == KeepNumeric(s)
  {
    KeepNumericFixes(KeepNumeric(s));
  }

  /**
   * `str.replace(pat, '')` with a literal pattern: scanning left to right, each
   * occurrence that does not overlap an earlier removed one is dropped.
   */
  function RemoveAll(s: string, pat: string): (r: string)
    ensures forall c :: c in r ==> c in s
    ensures |r| <= |s|
    decreases |s|
  {
    if pat == [] || |s| < |pat| then s
    else if s[..|pat|] == pat then
      assert s == s[..|pat|] + s[|pat|..];
      RemoveAll(s[|pat|..], pat)
    else
      assert s == [s[0]] + s[1..];
      [s[0]] + RemoveAll(s[1..], pat)
  }

  /** Text without the pattern comes back unchanged. */
  lemma {:induction false} RemoveAllAbsent(s: string, pat: string)
    requires !Contains(s, pat)
    ensures RemoveAll(s, pat) == s
  {
    if pat != [] && |pat| <= |s| {
      RemoveAllAbsent(s[1..], pat);
      assert s == [s[0]] + s[1..];
    }
  }

  /** A prefix that lacks the pattern's first character is passed through untouched. */
  lemma {:induction false} RemoveAllSkips(x: string, y: string, pat: string)
    requires pat != [] && pat[0] !in x
    ensures RemoveAll(x + y, pat) == x + RemoveAll(y, pat)
  {
    if x != [] {
      var s := x + y;
      assert x[0] in x;
      if |s| >= |pat| {
        assert s[..|pat|][0] == x[0] != pat[0];
        assert s[1..] == x[1..] + y;
        assert forall c :: c in x[1..] ==> c in x;
        RemoveAllSkips(x[1..], y, pat);
        calc {
          RemoveAll(s, pat);
          [x[0]] + RemoveAll(x[1..] + y, pat);
          [x[0]] + (x[1..] + RemoveAll(y, pat));
          ([x[0]] + x[1..]) + RemoveAll(y, pat);
          { assert [x[0]] + x[1..] == x; }
          x + RemoveAll(y, pat);
        }
      } else {
        assert RemoveAll(y, pat) == y;
      }
    } else {
      assert x + y == y;
    }
  }

  /** Removing a single character: none is left, and every other character keeps its count. */
  lemma {:induction false} RemoveCharCounts(s: string, c: char, x: char)
    ensures c !in RemoveAll(s, [c])
    ensures multiset(RemoveAll(s, [c]))[x] == if x == c then 0 else multiset(s)[x]
  {
    if s != [] {
      RemoveCharCounts(s[1..], c, x);
      assert s == [s[0]] + s[1..];
      assert s[..1] == [s[0]];
    }
  }

  /** Removing a single character twice is removing it once. */
  lemma RemoveCharIdempotent(s: string, c: char)
    ensures RemoveAll(RemoveAll(s, [c]), [c]) == RemoveAll(s, [c])
  {
    RemoveCharCounts(s, c, c);
    ContainsNeedsHead(RemoveAll(s, [c]), [c]);
    RemoveAllAbsent(RemoveAll(s, [c]), [c]);
  }

  /** A unit at the end of text that does not hold the unit's first character is cut off. */
  lemma RemoveTrailing(x: string, pat: string)
    requires pat != [] && pat[0] !in x
    ensures RemoveAll(x + pat, pat) == x
  {
    RemoveAllSkips(x, pat, pat);
    assert pat[..|pat|] == pat;
    assert RemoveAll(pat[|pat|..], pat) == [];
  }

  /**
   * The first occurrence is removed and the text before it kept: when `pat` does not
   * start anywhere in `x` (not even running into the match), the scan passes `x`
   * through, drops the match and carries on after it.
   */
  lemma {:induction false} RemoveAllMatch(x: string, y: string, pat: string)
    requires pat != [] && !Contains(x + pat[..|pat| - 1], pat)
    ensures RemoveAll(x + pat + y, pat) == x + RemoveAll(y, pat)
  {
    var s := x + pat + y;
    if x == [] {
      assert s == pat + y;
      assert s[..|pat|] == pat && s[|pat|..] == y;
    } else {
      var w := x + pat[..|pat| - 1];
      assert s[..|pat|] == w[..|pat|];
      assert w[1..] == x[1..] + pat[..|pat| - 1];
      RemoveAllMatch(x[1..], y, pat);
      assert s[1..] == x[1..] + pat + y;
      assert [x[0]] + (x[1..] + RemoveAll(y, pat)) == x + RemoveAll(y, pat);
    }
  }

  /** Removing `%` keeps the other characters in their order: "%12" becomes "12". */
  lemma PercentFirst()
    ensures RemoveAll("%12", "%") == "12"
  {
    RemoveAllMatch("", "12", "%");
    assert "" + "%" + "12" == "%12";
    RemoveAllAbsent("12", "%");
  }

  /**
   * For a longer pattern, removal can join two pieces into a new occurrence, so the
   * GDP strip does NOT promise that " trillion" is gone afterwards.
   */
  lemma RemoveAllCanReassemble()
    ensures RemoveAll("t trillionrillion", " trillion") == "trillion"
  {
    var pat := " trillion";
    RemoveAllSkips("t", " trillionrillion", pat);
    assert " trillionrillion"[..|pat|] == pat;
    assert " trillionrillion"[|pat|..] == "rillion";
    RemoveAllAbsent("rillion", pat);
  }

  /** Whitespace as Python's `str.isspace` knows it; `float()` ignores it at both ends. */
  predicate IsSpace(c: char)
  {
    var n := c as int;
    (9 <= n <= 13) || (28 <= n <= 32) || n == 0x85 || n == 0xA0 || n == 0x1680
    || (0x2000 <= n <= 0x200A) || n == 0x2028 || n == 0x2029 || n == 0x202F
    || n == 0x205F || n == 0x3000
  }

  function TrimLeft(s: string): string
  {
    if 0 < |s| && IsSpace(s[0]) then TrimLeft(s[1..]) else s
  }

  function TrimRight(s: string): string
  {
    if 0 < |s| && IsSpace(s[|s| - 1]) then TrimRight(s[..|s| - 1]) else s
  }

  predicate IsExponentMark(c: char)
  {
    c == 'e' || c == 'E'
  }

  /** Position of the first exponent letter, or `|s|` when there is none. */
  function FindExponent(s: string): (k: nat)
    ensures k <= |s|
    ensures k < |s| ==> IsExponentMark(s[k])
    ensures forall i :: 0 <= i < k ==> !IsExponentMark(s[i])
  {
    if s == [] then 0 else if IsExponentMark(s[0]) then 0 else 1 + FindExponent(s[1..])
  }

  /** `x` times 10 to the power `e`, for any integer `e`: a decimal point shift. */
  function Shift(x: real, e: int): real
    decreases if e < 0 then -e else e
  {
    if e == 0 then x else if 0 < e then 10.0 * Shift(x, e - 1) else Shift(x, e + 1) / 10.0
  }

  /** The value of `ip.fp` for digit strings `ip` and `fp`. */
  function PointValue(ip: string, fp: string): real
    requires AllDigits(ip) && AllDigits(fp)
  {
    DigitsValue(ip) as real + Shift(DigitsValue(fp) as real, -|fp|)
  }

  /** The text before the first point. */
  function IntPart(m: string): string
  {
    m[..IndexOf(m, '.')]
  }

  /** The text after the first point; empty when there is no point. */
  function FracPart(m: string): string
  {
    var p := IndexOf(m, '.');
    if p < |m| then m[p + 1..] else []
  }

  /** `digits ['.' [digits]]` or `'.' digits`: at least one digit, at most one point. */
  predicate IsMantissa(m: string)
  {
    AllDigits(IntPart(m)) && AllDigits(FracPart(m)) && 0 < |IntPart(m)| + |FracPart(m)|
  }

  function ParseMantissa(m: string): Option<real>
  {
    if IsMantissa(m) then Some(PointValue(IntPart(m), FracPart(m))) else None
  }

  /** `['+'|'-'] digits` after the exponent letter. */
  function ParseExponent(x: string): Option<int>
  {
    var body := if 0 < |x| && (x[0] == '+' || x[0] == '-') then x[1..] else x;
    if 0 < |body| && AllDigits(body) then
      var v: int := DigitsValue(body);
      Some(if x[0] == '-' then -v else v)
    else None
  }

  function ParseUnsigned(t: string): Option<real>
  {
    var e := FindExponent(t);
    match ParseMantissa(t[..e])
    case None => None
    case Some(m) =>
      if e == |t| then Some(m)
      else match ParseExponent(t[e + 1..])
        case None => None
        case Some(x) => Some(Shift(m, x))
  }

  /**
   * Python's `float(text)` (what `astype(float)` applies to each text cell) on finite
   * decimal text: surrounding whitespace, an optional sign, a mantissa and an optional
   * exponent. `None` is the ValueError that aborts the cleaning run.
   */
  function ParseFloat(s: string): (r: Option<real>)
    ensures TrimRight(TrimLeft(s)) in {"", "+", "-", "."} ==> r == None
  {
    var t := TrimRight(TrimLeft(s));
    if 0 < |t| && (t[0] == '+' || t[0] == '-') then
      match ParseUnsigned(t[1..])
      case None => None
      case Some(v) => Some(if t[0] == '-' then -v else v)
    else ParseUnsigned(t)
  }

  /** Digits with an optional fraction: `ip` or `ip.fp`. */
  function Unsigned(ip: string, fp: string): string
  {
    if fp == [] then ip else ip + ("." + fp)
  }

  lemma {:induction false} TrimNumeric(s: string)
    requires AllNumeric(s)
    ensures TrimLeft(s) == s && TrimRight(s) == s
  {
  }

  lemma {:induction false} NoExponent(s: string)
    requires AllNumeric(s)
    ensures FindExponent(s) == |s|
  {
    if s != [] {
      NoExponent(s[1..]);
    }
  }

  lemma {:induction false} NoPoint(s: string)
    requires AllDigits(s)
    ensures IndexOf(s, '.') == |s|
  {
    if s != [] {
      NoPoint(s[1..]);
    }
  }

  /** On digits-and-points text, `float()` reads exactly the mantissa grammar. */
  lemma ParseNumeric(u: string)
    requires AllNumeric(u)
    ensures ParseFloat(u) == ParseMantissa(u)
  {
    TrimNumeric(u);
    NoExponent(u);
    assert u[..|u|] == u;
  }

  /** A leading '-' negates what the digits-and-points text reads as. */
  lemma ParseNegated(u: string)
    requires AllNumeric(u) && 0 < |u|
    ensures ParseMantissa(u).None? ==> ParseFloat("-" + u) == None
    ensures ParseMantissa(u).Some? ==> ParseFloat("-" + u) == Some(-ParseMantissa(u).value)
  {
    var s := "-" + u;
    TrimNumeric(u);
    assert TrimLeft(s) == s by {
      assert !IsSpace(s[0]);
    }
    assert TrimRight(s) == s by {
      assert s[|s| - 1] == u[|u| - 1];
    }
    assert s[1..] == u;
    NoExponent(u);
    assert u[..|u|] == u;
  }

  lemma PartsOfUnsigned(ip: string, fp: string)
    requires AllDigits(ip)
    ensures IntPart(Unsigned(ip, fp)) == ip && FracPart(Unsigned(ip, fp)) == fp
  {
    NoPoint(ip);
    if fp == [] {
      assert ip[..|ip|] == ip;
    } else {
      var u := ip + ("." + fp);
      assert u[|ip|] == '.';
      assert forall i :: 0 <= i < |ip| ==> u[i] == ip[i];
      assert IndexOf(u, '.') == |ip|;
      assert u[..|ip|] == ip && u[|ip| + 1..] == fp;
    }
  }

  lemma MantissaPoint(ip: string, fp: string)
    requires AllDigits(ip) && AllDigits(fp) && 0 < |ip|
    ensures ParseMantissa(Unsigned(ip, fp)) == Some(PointValue(ip, fp))
  {
    PartsOfUnsigned(ip, fp);
  }

  lemma UnsignedNumeric(ip: string, fp: string)
    requires AllDigits(ip) && AllDigits(fp) && 0 < |ip|
    ensures AllNumeric(Unsigned(ip, fp)) && 0 < |Unsigned(ip, fp)|
  {
    if fp != [] {
      var u := ip + ("." + fp);
      forall i | 0 <= i < |u|
        ensures IsNumeric(u[i])
      {
        if i < |ip| {
          assert u[i] == ip[i];
        } else if i > |ip| {
          assert u[i] == fp[i - |ip| - 1];
        }
      }
    }
  }

  /** Reading decimal text made of digits and an optional fraction gives back its value. */
  lemma ParseRender(ip: string, fp: string)
    requires AllDigits(ip) && AllDigits(fp) && 0 < |ip|
    ensures ParseFloat(Unsigned(ip, fp)) == Some(PointValue(ip, fp))
  {
    UnsignedNumeric(ip, fp);
    MantissaPoint(ip, fp);
    ParseNumeric(Unsigned(ip, fp));
  }

  /** The exponent letter splits at the end of the mantissa when the mantissa has none. */
  lemma {:induction false} ExponentAfter(u: string, r: string)
    requires AllNumeric(u)
    ensures FindExponent(u + r) == |u| + FindExponent(r)
  {
    if u != [] {
      assert (u + r)[0] == u[0];
      assert (u + r)[1..] == u[1..] + r;
      ExponentAfter(u[1..], r);
    } else {
      assert u + r == r;
    }
  }

  /** Text that starts with a digit and does not end in whitespace is read as it stands. */
  lemma Untrimmed(t: string)
    requires 0 < |t| && IsDigit(t[0]) && !IsSpace(t[|t| - 1])
    ensures ParseFloat(t) == ParseUnsigned(t)
  {
    assert TrimLeft(t) == t;
    assert TrimRight(t) == t;
  }

  /** A mantissa followed by `e` and an exponent text: the exponent decides. */
  lemma MantissaThenExponent(u: string, ex: string)
    requires AllNumeric(u) && ParseMantissa(u).Some?
    ensures ParseUnsigned(u + ("e" + ex)) ==
      if ParseExponent(ex).Some? then Some(Shift(ParseMantissa(u).value, ParseExponent(ex).value)) else None
  {
    var t := u + ("e" + ex);
    ExponentAfter(u, "e" + ex);
    assert t[..|u|] == u && t[|u| + 1..] == ex;
  }

  /** Exponent digits without a sign read as their value. */
  lemma ExponentDigits(ex: string)
    requires AllDigits(ex) && 0 < |ex|
    ensures ParseExponent(ex) == Some(DigitsValue(ex) as int)
  {
    assert ex[0] != '+' && ex[0] != '-';
  }

  /** Scientific notation: `ip.fp` followed by `e` and digits reads as the mantissa shifted by the exponent. */
  lemma ParseScientific(ip: string, fp: string, ex: string)
    requires AllDigits(ip) && AllDigits(fp) && 0 < |ip| && AllDigits(ex) && 0 < |ex|
    ensures ParseFloat(Unsigned(ip, fp) + ("e" + ex)) == Some(Shift(PointValue(ip, fp), DigitsValue(ex)))
  {
    var u := Unsigned(ip, fp);
    UnsignedNumeric(ip, fp);
    MantissaPoint(ip, fp);
    var t := u + ("e" + ex);
    assert t[0] == ip[0] && t[|t| - 1] == ex[|ex| - 1];
    Untrimmed(t);
    MantissaThenExponent(u, ex);
    ExponentDigits(ex);
  }

  /** An exponent letter with no digits after it is rejected. */
  lemma ParseBareExponent(ip: string, fp: string)
    requires AllDigits(ip) && AllDigits(fp) && 0 < |ip|
    ensures ParseFloat(Unsigned(ip, fp) + "e") == None
  {
    var u := Unsigned(ip, fp);
    UnsignedNumeric(ip, fp);
    MantissaPoint(ip, fp);
    var v := u + "e";
    assert v == u + ("e" + []);
    assert v[0] == ip[0] && v[|v| - 1] == 'e';
    Untrimmed(v);
    MantissaThenExponent(u, []);
  }

  lemma ScientificValue()
    ensures Shift(PointValue("2", "5"), DigitsValue("1")) == 25.0
  {
    assert PointValue("2", "5") == 2.5 by {
      assert Shift(5.0, -1) == 0.5;
    }
    assert Shift(2.5, 1) == 25.0;
  }

  lemma ScientificText()
    ensures Unsigned("2", "5") + ("e" + "1") == "2.5e1"
  {
  }

  /** "2.5e1" reads as 25. */
  lemma ScientificExample()
    ensures ParseFloat("2.5e1") == Some(25.0)
  {
    ScientificText();
    ScientificValue();
    ParseScientific("2", "5", "1");
  }

  /** "1e" is rejected. */
  lemma BareExponentExample()
    ensures ParseFloat("1e") == None
  {
    ParseBareExponent("1", "");
    assert Unsigned("1", "") + "e" == "1e";
  }

  /** How many points a text holds. */
  function Points(s: string): nat
  {
    multiset(s)['.']
  }

  /** Some character of `s` is a digit. */
  predicate HasDigit(s: string)
  {
    0 < |s| && (IsDigit(s[0]) || HasDigit(s[1..]))
  }

  lemma {:induction false} HasDigitConcat(a: string, b: string)
    ensures HasDigit(a + b) <==> HasDigit(a) || HasDigit(b)
  {
    if a == [] {
      assert a + b == b;
    } else {
      assert (a + b)[0] == a[0] && (a + b)[1..] == a[1..] + b;
      HasDigitConcat(a[1..], b);
    }
  }

  lemma {:induction false} HasDigitOfDigits(s: string)
    requires AllDigits(s)
    ensures HasDigit(s) <==> 0 < |s|
  {
  }

  lemma DigitsIffNoPoint(s: string)
    requires AllNumeric(s)
    ensures AllDigits(s) <==> Points(s) == 0
  {
    if !AllDigits(s) {
      var i :| 0 <= i < |s| && !IsDigit(s[i]);
      assert s[i] in multiset(s);
    }
  }

  /** Any text holding a point is what precedes its first point, the point, and the rest. */
  lemma SplitAtPoint(k: string)
    requires IndexOf(k, '.') < |k|
    ensures k == IntPart(k) + (['.'] + FracPart(k))
  {
    var p := IndexOf(k, '.');
    var ip, fp := k[..p], k[p + 1..];
    assert IntPart(k) == ip && FracPart(k) == fp;
    SplitAt(k, p);
  }

  lemma SplitAt(k: string, p: nat)
    requires p < |k|
    ensures k == k[..p] + ([k[p]] + k[p + 1..])
  {
    assert k == k[..p] + k[p..];
  }

  /** On digits-and-points text, the part before the first point is all digits. */
  lemma PartsAroundPoint(k: string)
    requires AllNumeric(k)
    ensures AllDigits(IntPart(k)) && AllNumeric(FracPart(k))
  {
  }

  lemma CountsAroundPoint(k: string)
    requires AllNumeric(k) && IndexOf(k, '.') < |k|
    ensures Points(k) == Points(IntPart(k)) + 1 + Points(FracPart(k))
    ensures HasDigit(k) <==> HasDigit(IntPart(k)) || HasDigit(FracPart(k))
  {
    var ip, fp := IntPart(k), FracPart(k);
    SplitAtPoint(k);
    PartsAroundPoint(k);
    HasDigitConcat(ip, ['.'] + fp);
    HasDigitConcat(['.'], fp);
    assert !HasDigit(['.']);
  }

  /** The mantissa grammar on digits-and-points text: some digit, at most one point. */
  lemma MantissaOfNumeric(k: string)
    requires AllNumeric(k)
    ensures IsMantissa(k) <==> Points(k) <= 1 && HasDigit(k)
  {
    var ip, fp := IntPart(k), FracPart(k);
    PartsAroundPoint(k);
    if IndexOf(k, '.') < |k| {
      CountsAroundPoint(k);
      DigitsIffNoPoint(fp);
      HasDigitOfDigits(ip);
      if AllDigits(fp) {
        HasDigitOfDigits(fp);
      }
    } else {
      assert k[..|k|] == k;
      DigitsIffNoPoint(k);
      HasDigitOfDigits(k);
    }
  }

  /**
   * After the PE strip, `float()` succeeds exactly when the remainder has at least one
   * digit and at most one point (so `"Est. 21.3x"` -> `".21.3"` is rejected).
   */
  lemma KeptParses(s: string)
    ensures var k := KeepNumeric(s); ParseFloat(k).Some? <==> Points(k) <= 1 && HasDigit(k)
  {
    ParseNumeric(KeepNumeric(s));
    MantissaOfNumeric(KeepNumeric(s));
  }

  lemma GarbledStrip()
    ensures KeepNumeric("Est. 21.3x") == ".21.3"
  {
    assert "Est. 21.3x" == "Est. " + "21.3x";
    GarbledPieces("Est. ", "21.3x");
  }

  lemma GarbledPieces(a: string, b: string)
    requires a == "Est. " && b == "21.3x"
    ensures KeepNumeric(a + b) == ".21.3"
  {
    KeepNumericConcat(a, b);
    PrefixStrip();
    SuffixStrip();
  }

  lemma PrefixStrip()
    ensures KeepNumeric("Est. ") == "."
  {
    assert KeepNumeric(" ") == [];
    assert KeepNumeric(". ") == ".";
  }

  lemma SuffixStrip()
    ensures KeepNumeric("21.3x") == "21.3"
  {
    assert KeepNumeric("x") == [];
    assert KeepNumeric("3x") == "3";
    assert KeepNumeric(".3x") == ".3";
  }

  lemma GarbledPoints()
    ensures Points(".21.3") == 2
  {
    assert ".21.3" == ['.'] + "21" + ['.'] + "3";
  }

  /** `"Est. 21.3x"` keeps two points and is rejected. */
  lemma GarbledPeRejected()
    ensures KeepNumeric("Est. 21.3x") == ".21.3"
    ensures ParseFloat(".21.3") == None
  {
    GarbledStrip();
    GarbledPoints();
    KeptParses("Est. 21.3x");
  }

  /** Reading the decimal text `ip.fp`, for text already known to be that rendering. */
  lemma ReadsAs(x: string, ip: string, fp: string)
    requires AllDigits(ip) && AllDigits(fp) && 0 < |ip| && 0 < |fp|
    requires x == ip + ("." + fp)
    ensures ParseFloat(x) == Some(PointValue(ip, fp))
  {
    ParseRender(ip, fp);
    assert Unsigned(ip, fp) == x;
  }

  lemma InflationStrip()
    ensures RemoveAll("24.5%", "%") == "24.5"
  {
    var x, pat := "24.5", "%";
    assert x + pat == "24.5%";
    assert pat[0] !in x;
    RemoveTrailing(x, pat);
  }

  lemma InflationValue()
    ensures PointValue("24", "5") == 24.5
  {
    DigitsValueTwo("24");
    assert Shift(5.0, -1) == 0.5;
  }

  /** Inflation text "24.5%" is read as 24.5. */
  lemma InflationExample()
    ensures RemoveAll("24.5%", "%") == "24.5"
    ensures ParseFloat("24.5") == Some(24.5)
  {
    InflationStrip();
    InflationValue();
    ReadsAs("24.5", "24", "5");
  }

  lemma GdpStrip()
    ensures RemoveAll("27.36 trillion", " trillion") == "27.36"
  {
    var x, pat := "27.36", " trillion";
    assert x + pat == "27.36 trillion";
    assert pat[0] !in x;
    RemoveTrailing(x, pat);
  }

  lemma GdpValue()
    ensures PointValue("27", "36") == 27.36
  {
    DigitsValueTwo("27");
    DigitsValueTwo("36");
    assert Shift(36.0, -1) == 3.6;
    assert Shift(36.0, -2) == 0.36;
  }

  /** GDP text "27.36 trillion" is read as 27.36. */
  lemma GdpExample()
    ensures RemoveAll("27.36 trillion", " trillion") == "27.36"
    ensures ParseFloat("27.36") == Some(27.36)
  {
    GdpStrip();
    GdpValue();
    ReadsAs("27.36", "27", "36");
  }

  /** A currency sign is not part of the GDP strip, so "$1.2 trillion" fails to parse. */
  lemma DollarGdpRejected()
    ensures RemoveAll("$1.2 trillion", " trillion") == "$1.2"
    ensures ParseFloat("$1.2") == None
  {
    DollarStrip();
    DollarText("$1.2");
  }

  lemma DollarStrip()
    ensures RemoveAll("$1.2 trillion", " trillion") == "$1.2"
  {
    var x, pat := "$1.2", " trillion";
    assert x + pat == "$1.2 trillion";
    assert pat[0] !in x;
    RemoveTrailing(x, pat);
  }

  /** Text opening with a character that is neither space, sign, digit nor point is no number. */
  lemma DollarText(x: string)
    requires x == "$1.2"
    ensures ParseFloat(x) == None
  {
    assert TrimLeft(x) == x;
    assert TrimRight(x) == x;
    assert !IsDigit(x[0]) && x[0] != '.';
  }
}
