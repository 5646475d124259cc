/** String helpers that the app takes from Swift's standard library:
    `joined(separator:)`, the decimal rendering of an `Int` inside string
    interpolation, and the ordering of `String` values. Splitting on single
    spaces (`Words`) is not something the app does: it is the inverse the
    delivery-time label is read back with. */
module Text {

  import opened Wrappers

  // ---------------------------------------------------------------------
  // Joining
  // ---------------------------------------------------------------------

  /** `parts.joined(separator: sep)`. */
  function Join(parts: seq<string>, sep: string): (r: string)
    ensures |parts| == 0 ==> r == ""
    ensures |parts| >= 1 ==> parts[0] <= r
  {
    if |parts| == 0 then ""
    else if |parts| == 1 then parts[0]
    else parts[0] + sep + Join(parts[1..], sep)
  }

  /** The number of occurrences of `c` in `s`. */
  function CountChar(s: string, c: char): nat
  {
    if |s| == 0 then 0 else (if s[0] == c then 1 else 0) + CountChar(s[1..], c)
  }

  /** The number of occurrences of `c` over all of `parts`. */
  function CountCharIn(parts: seq<string>, c: char): nat
  {
    if |parts| == 0 then 0 else CountChar(parts[0], c) + CountCharIn(parts[1..], c)
  }

  lemma {:induction false} CountCharAppend(a: string, b: string, c: char)
    ensures CountChar(a + b, c) == CountChar(a, c) + CountChar(b, c)
  {
    if |a| > 0 {
      assert (a + b)[1..] == a[1..] + b;
      CountCharAppend(a[1..], b, c);
    } else {
      assert a + b == b;
    }
  }

  /** Every part contributes its own occurrences of `c`, and each of the
      |parts| - 1 separators contributes those of `sep`. */
  lemma {:induction false} JoinCountChar(parts: seq<string>, sep: string, c: char)
    requires |parts| >= 1
    ensures CountChar(Join(parts, sep), c) == CountCharIn(parts, c) + (|parts| - 1) * CountChar(sep, c)
  {
    if |parts| > 1 {
      var k := |parts| - 1;
      assert Join(parts, sep) == parts[0] + sep + Join(parts[1..], sep);
      assert CountCharIn(parts, c) == CountChar(parts[0], c) + CountCharIn(parts[1..], c);
      assert k * CountChar(sep, c) == (k - 1) * CountChar(sep, c) + CountChar(sep, c);
      JoinCountChar(parts[1..], sep, c);
      CountCharAppend(parts[0], sep, c);
      CountCharAppend(parts[0] + sep, Join(parts[1..], sep), c);
    }
  }

  // ---------------------------------------------------------------------
  // Splitting on a space
  // ---------------------------------------------------------------------

  /** The index of the first space in `s`, or |s| when there is none. */
  function FirstSpace(s: string): (i: nat)
    ensures i <= |s|
    ensures ' ' !in s[..i]
    ensures i < |s| ==> s[i] == ' '
  {
    if |s| == 0 || s[0] == ' ' then 0
    else
      var i := 1 + FirstSpace(s[1..]);
      assert s[..i] == [s[0]] + s[1..][..i - 1];
      i
  }

  /** The words between single spaces; the parser that reads a delivery-time
      label back is built on it. */
  function Words(s: string): (w: seq<string>)
    ensures |w| >= 1
    decreases |s|
  {
    var i := FirstSpace(s);
    if i == |s| then [s] else [s[..i]] + Words(s[i + 1..])
  }

  predicate NoSpace(s: string)
  {
    ' ' !in s
  }

  lemma WordsOfWord(w: string)
    requires NoSpace(w)
    ensures Words(w) == [w]
  {
  }

  lemma WordsCons(w: string, rest: string)
    requires NoSpace(w)
    ensures Words(w + " " + rest) == [w] + Words(rest)
  {
    var s := w + " " + rest;
    assert s[..|w|] == w;
    assert s[|w|] == ' ';
    assert s[|w| + 1..] == rest;
  }

  lemma TwoWords(a: string, b: string)
    requires NoSpace(a) && NoSpace(b)
    ensures Words(a + " " + b) == [a, b]
  {
    WordsOfWord(b);
    WordsCons(a, b);
  }

  lemma FourWords(a: string, b: string, c: string, d: string)
    requires NoSpace(a) && NoSpace(b) && NoSpace(c) && NoSpace(d)
    ensures Words(a + " " + b + " " + c + " " + d) == [a, b, c, d]
  {
    var cd := c + " " + d;
    var bcd := b + " " + cd;
    SpacedRegroup(a, b, c, d);
    TwoWords(c, d);
    WordsCons(b, cd);
    assert Words(bcd) == [b, c, d];
    WordsCons(a, bcd);
  }

  lemma SpacedRegroup(a: string, b: string, c: string, d: string)
    ensures a + " " + b + " " + c + " " + d == a + " " + (b + " " + (c + " " + d))
  {
  }

  // ---------------------------------------------------------------------
  // Decimal rendering of integers
  // ---------------------------------------------------------------------

  predicate IsDigit(c: char)
  {
    '0' <= c <= '9'
  }

  predicate IsNumeral(s: string)
  {
    |s| >= 1 && forall k :: 0 <= k < |s| ==> IsDigit(s[k])
  }

  function DigitChar(d: nat): (c: char)
    requires d < 10
    ensures IsDigit(c)
  {
    ('0' as int + d) as char
  }

  function DigitValue(c: char): (d: nat)
    requires IsDigit(c)
    ensures d < 10
  {
    c as int - '0' as int
  }

  /** The decimal numeral of `n`, as `"\(n)"` writes a non-negative `Int`. */
  function NatToString(n: nat): (s: string)
    ensures IsNumeral(s)
    ensures s[0] == '0' <==> n == 0
    decreases n
  {
    if n < 10 then [DigitChar(n)] else NatToString(n / 10) + [DigitChar(n % 10)]
  }

  /** `"\(i)"` for any `Int`: a minus sign before the magnitude when negative. */
  function IntToString(i: int): (s: string)
    ensures IsNumeral(s) <==> i >= 0
    ensures i < 0 ==> |s| >= 2 && s[0] == '-' && IsNumeral(s[1..])
  {
    if i < 0 then
      var s := "-" + NatToString(-i);
      assert s[1..] == NatToString(-i) && !IsDigit(s[0]);
      s
    else NatToString(i)
  }

  /** The value of a string of decimal digits. */
  function ParseDecimal(s: string): nat
    requires forall k :: 0 <= k < |s| ==> IsDigit(s[k])
  {
    if |s| == 0 then 0 else 10 * ParseDecimal(s[..|s| - 1]) + DigitValue(s[|s| - 1])
  }

  /** Reading back an integer as `"\(i)"` wrote it. */
  function ParseInteger(s: string): Option<int>
  {
    if IsNumeral(s) then Some(ParseDecimal(s))
    else if |s| >= 2 && s[0] == '-' && IsNumeral(s[1..]) then (var n: int := ParseDecimal(s[1..]); Some(-n))
    else None
  }

  lemma {:induction false} ParseNatToString(n: nat)
    ensures ParseDecimal(NatToString(n)) == n
    decreases n
  {
    var s := NatToString(n);
    if n >= 10 {
      ParseNatToString(n / 10);
      assert s[..|s| - 1] == NatToString(n / 10);
    }
  }

  /** The rendering of an `Int` reads back as that `Int`. */
  lemma ParseIntToString(i: int)
    ensures ParseInteger(IntToString(i)) == Some(i)
  {
    if i < 0 {
      var m := NatToString(-i);
      assert IntToString(i) == "-" + m;
      ParseNatToString(-i);
      ParseSigned(m);
    } else {
      ParseNatToString(i);
    }
  }

  /** A minus sign before a numeral reads back as the negated value. */
  lemma ParseSigned(m: string)
    requires IsNumeral(m)
    ensures ParseInteger("-" + m) == Some(0 - ParseDecimal(m) as int)
  {
    var s := "-" + m;
    assert s[1..] == m;
    assert !IsDigit(s[0]);
  }

  lemma NatToStringInjective(m: nat, n: nat)
    requires NatToString(m) == NatToString(n)
    ensures m == n
  {
    ParseNatToString(m);
    ParseNatToString(n);
  }

  lemma NumeralHasNoSpace(s: string)
    requires forall k :: 0 <= k < |s| ==> IsDigit(s[k])
    ensures NoSpace(s)
  {
  }

  lemma IntToStringHasNoSpace(i: int)
    ensures NoSpace(IntToString(i))
  {
  }

  // ---------------------------------------------------------------------
  // Ordering of strings
  // ---------------------------------------------------------------------

  /** `a < b` on strings: lexicographic, character by character, a proper
      prefix coming first. */
  predicate LexLess(a: string, b: string)
  {
    |b| > 0 && (|a| == 0 || a[0] < b[0] || (a[0] == b[0] && LexLess(a[1..], b[1..])))
  }

  lemma {:induction false} LexLessIrreflexive(a: string)
    ensures !LexLess(a, a)
  {
    if |a| > 0 {
      LexLessIrreflexive(a[1..]);
    }
  }

  lemma {:induction false} LexLessTransitive(a: string, b: string, c: string)
    requires LexLess(a, b) && LexLess(b, c)
    ensures LexLess(a, c)
  {
    if |a| > 0 && a[0] == b[0] && b[0] == c[0] {
      LexLessTransitive(a[1..], b[1..], c[1..]);
    }
  }

  /** Any two different strings are ordered one way or the other. */
  lemma {:induction false} LexLessTotal(a: string, b: string)
    ensures a == b || LexLess(a, b) || LexLess(b, a)
  {
    if |a| > 0 && |b| > 0 && a[0] == b[0] {
      LexLessTotal(a[1..], b[1..]);
      if a[1..] == b[1..] {
        assert a == [a[0]] + a[1..] && b == [b[0]] + b[1..];
      }
    }
  }

  lemma LexLessAsymmetric(a: string, b: string)
    requires LexLess(a, b)
    ensures !LexLess(b, a)
  {
    if LexLess(b, a) {
      LexLessTransitive(a, b, a);
      LexLessIrreflexive(a);
    }
  }
}
