/** String operations the JavaScript source relies on: number-to-text conversion in template
    literals, `Array.prototype.join`, and `String.prototype.trim`. */
module Text {

  predicate IsDigit(c: char) {
    '0' <= c <= '9'
  }

  predicate AllDigits(s: string) {
    forall i :: 0 <= i < |s| ==> IsDigit(s[i])
  }

  function DigitChar(d: nat): (c: char)
    requires d < 10
    ensures IsDigit(c)
  {
    "0123456789"[d]
  }

  function DigitValue(c: char): (d: nat)
    requires IsDigit(c)
    ensures d < 10
  {
    c as int - '0' as int
  }

  /** The decimal text of a natural number, as JavaScript prints it inside `${...}`:
      only digits, and no leading zero except for 0 itself. */
  function NatToString(n: nat): (s: string)
    ensures |s| > 0 && AllDigits(s)
    ensures s[0] == '0' ==> n == 0
    decreases n
  {
    if n < 10 then [DigitChar(n)] else NatToString(n / 10) + [DigitChar(n % 10)]
  }

  /** Reads a string of decimal digits back as a number. */
  function ParseNat(s: string): nat
    requires AllDigits(s)
    decreases |s|
  {
    if |s| == 0 then 0 else ParseNat(s[..|s| - 1]) * 10 + DigitValue(s[|s| - 1])
  }

  /** Printing a number and reading it back gives the number. */
  lemma {:induction false} ParseNatToString(n: nat)
    ensures ParseNat(NatToString(n)) == n
    decreases n
  {
    var s := NatToString(n);
    if n >= 10 {
      ParseNatToString(n / 10);
      assert s[..|s| - 1] == NatToString(n / 10);
    }
  }

  /** Distinct numbers print as distinct texts. */
  lemma NatToStringInjective(m: nat, n: nat)
    requires m != n
    ensures NatToString(m) != NatToString(n)
  {
    ParseNatToString(m);
    ParseNatToString(n);
  }

  /** The text of an integer in a template literal: a minus sign before negative numbers. */
  function IntToString(i: int): (s: string)
    ensures |s| > 0
    ensures i >= 0 ==> s == NatToString(i)
    ensures i < 0 ==> s[0] == '-' && s[1..] == NatToString(-i)
  {
    if i < 0 then "-" + NatToString(-i) else NatToString(i)
  }

  /** The form of an integer's text: decimal digits, with a minus sign before them or not. */
  predicate IsIntText(s: string) {
    |s| > 0 && (AllDigits(s) || (s[0] == '-' && AllDigits(s[1..])))
  }

  /** Reads the text of an integer back. */
  function ParseInt(s: string): int
    requires IsIntText(s)
  {
    if s[0] == '-' then -(ParseNat(s[1..]) as int) else ParseNat(s)
  }

  /** Printing an integer and reading it back gives the integer. */
  lemma ParseIntToString(i: int)
    ensures IsIntText(IntToString(i)) && ParseInt(IntToString(i)) == i
  {
    if i < 0 {
      ParseNegativeText(-i);
    } else {
      ParseNonNegativeText(i);
    }
  }

  /** A minus sign before the digits of `n` reads back as `-n`. */
  lemma ParseNegativeText(n: nat)
    ensures var s := "-" + NatToString(n); IsIntText(s) && ParseInt(s) == -(n as int)
  {
    var digits := NatToString(n);
    var s := "-" + digits;
    assert s[1..] == digits;
    ParseNatToString(n);
  }

  /** The digits of `n` read back as `n`. */
  lemma ParseNonNegativeText(n: nat)
    ensures IsIntText(NatToString(n)) && ParseInt(NatToString(n)) == n
  {
    var s := NatToString(n);
    assert IsDigit(s[0]);
    ParseNatToString(n);
  }

  /** The summed length of the parts. */
  function TotalLength(parts: seq<string>): nat
    decreases |parts|
  {
    if |parts| == 0 then 0 else |parts[0]| + TotalLength(parts[1..])
  }

  /** `parts.join(sep)`: the parts in order, with `sep` between neighbours: the empty string
      for no parts, otherwise the first part, and one separator fewer than there are parts. */
  function Join(parts: seq<string>, sep: string): (r: string)
    ensures |parts| == 0 ==> r == ""
    ensures |parts| > 0 ==> |r| == TotalLength(parts) + (|parts| - 1) * |sep|
    ensures |parts| > 0 ==> |parts[0]| <= |r| && r[..|parts[0]|] == parts[0]
    decreases |parts|
  {
    if |parts| == 0 then ""
    else if |parts| == 1 then parts[0]
    else parts[0] + sep + Join(parts[1..], sep)
  }

  /** The number of occurrences of `c` in `s`. */
  function CountChar(s: string, c: char): nat
    decreases |s|
  {
    if |s| == 0 then 0 else (if s[0] == c then 1 else 0) + CountChar(s[1..], c)
  }

  lemma {:induction false} CountCharAppend(a: string, b: string, c: char)
    ensures CountChar(a + b, c) == CountChar(a, c) + CountChar(b, c)
    decreases |a|
  {
    if |a| > 0 {
      assert (a + b)[1..] == a[1..] + b;
      CountCharAppend(a[1..], b, c);
    } else {
      assert a + b == b;
    }
  }

  lemma {:induction false} CountCharAbsent(s: string, c: char)
    requires forall i :: 0 <= i < |s| ==> s[i] != c
    ensures CountChar(s, c) == 0
    decreases |s|
  {
    if |s| > 0 {
      CountCharAbsent(s[1..], c);
    }
  }

  /** A text that does not contain `c` holds no occurrence of it. */
  lemma CountCharNotIn(s: string, c: char)
    requires c !in s
    ensures CountChar(s, c) == 0
  {
    CountCharAbsent(s, c);
  }

  lemma {:induction false} CountCharDigits(s: string, c: char)
    requires AllDigits(s) && !IsDigit(c)
    ensures CountChar(s, c) == 0
    decreases |s|
  {
    if |s| > 0 {
      CountCharDigits(s[1..], c);
    }
  }

  /** The occurrences of `c` in all the parts together. */
  function CountCharAll(parts: seq<string>, c: char): nat
    decreases |parts|
  {
    if |parts| == 0 then 0 else CountChar(parts[0], c) + CountCharAll(parts[1..], c)
  }

  /** A separator without `c` adds no occurrence of `c` to a join. */
  lemma {:induction false} CountCharJoin(parts: seq<string>, sep: string, c: char)
    requires CountChar(sep, c) == 0
    ensures CountChar(Join(parts, sep), c) == CountCharAll(parts, c)
    decreases |parts|
  {
    if |parts| == 1 {
      assert CountCharAll(parts[1..], c) == 0;
    } else if |parts| > 1 {
      CountCharJoin(parts[1..], sep, c);
      CountCharAppend(parts[0], sep, c);
      CountCharAppend(parts[0] + sep, Join(parts[1..], sep), c);
    }
  }

  /** The characters `String.prototype.trim` removes: the ECMAScript WhiteSpace and
      LineTerminator code points. */
  predicate IsJsWhitespace(c: char) {
    var n := c as int;
    n == 0x09 || n == 0x0A || n == 0x0B || n == 0x0C || n == 0x0D || n == 0x20 ||
    n == 0xA0 || n == 0x1680 || (0x2000 <= n <= 0x200A) || n == 0x2028 || n == 0x2029 ||
    n == 0x202F || n == 0x205F || n == 0x3000 || n == 0xFEFF
  }

  predicate AllWhitespace(s: string) {
    forall i :: 0 <= i < |s| ==> IsJsWhitespace(s[i])
  }

  /** Every character of `s` at an index in `lo..hi` is whitespace. */
  predicate WhitespaceBetween(s: string, lo: int, hi: int) {
    forall k :: lo <= k < hi && 0 <= k < |s| ==> IsJsWhitespace(s[k])
  }

  /** `s` with its leading whitespace removed. */
  function TrimStart(s: string): (r: string)
    ensures |r| <= |s| && r == s[|s| - |r|..]
    ensures WhitespaceBetween(s, 0, |s| - |r|)
    ensures r == [] || !IsJsWhitespace(r[0])
    decreases |s|
  {
    if |s| > 0 && IsJsWhitespace(s[0]) then TrimStart(s[1..]) else s
  }

  /** `s` with its trailing whitespace removed. */
  function TrimEnd(s: string): (r: string)
    ensures |r| <= |s| && r == s[..|r|]
    ensures WhitespaceBetween(s, |r|, |s|)
    ensures r == [] || !IsJsWhitespace(r[|r| - 1])
    decreases |s|
  {
    if |s| > 0 && IsJsWhitespace(s[|s| - 1]) then TrimEnd(s[..|s| - 1]) else s
  }

  /** `s.trim()`: the slice of `s` left after whitespace is removed at both ends; it neither
      starts nor ends with whitespace, and only whitespace was cut away. */
  function Trim(s: string): (r: string)
    ensures exists i, j :: 0 <= i <= j <= |s| && r == s[i..j] && AllWhitespace(s[..i]) && AllWhitespace(s[j..])
    ensures r == [] || (!IsJsWhitespace(r[0]) && !IsJsWhitespace(r[|r| - 1]))
  {
    TrimEndOfTrimStart(s);
    TrimEnd(TrimStart(s))
  }

  /** Trimming the start and then the end leaves a slice with only whitespace cut away, which
      neither starts nor ends with whitespace. */
  lemma TrimEndOfTrimStart(s: string)
    ensures var r := TrimEnd(TrimStart(s));
            exists i, j :: 0 <= i <= j <= |s| && r == s[i..j] && AllWhitespace(s[..i]) && AllWhitespace(s[j..])
    ensures var r := TrimEnd(TrimStart(s));
            r == [] || (!IsJsWhitespace(r[0]) && !IsJsWhitespace(r[|r| - 1]))
  {
    var t := TrimStart(s);
    var i, j := SliceBetweenWhitespace(s, t, TrimEnd(t));
    assert TrimEnd(t) != [] ==> TrimEnd(t)[0] == t[0];
  }

  /** A prefix `r` of a suffix `t` of `s`, where what lies before `t` and after `r` is
      whitespace, is a slice of `s` between two runs of whitespace. */
  lemma SliceBetweenWhitespace(s: string, t: string, r: string) returns (i: nat, j: nat)
    requires |t| <= |s| && t == s[|s| - |t|..] && WhitespaceBetween(s, 0, |s| - |t|)
    requires |r| <= |t| && r == t[..|r|] && WhitespaceBetween(t, |r|, |t|)
    ensures 0 <= i <= j <= |s| && r == s[i..j]
    ensures AllWhitespace(s[..i]) && AllWhitespace(s[j..])
  {
    i := |s| - |t|;
    j := i + |r|;
    assert r == s[i..j] by {
      assert r == s[i..][..|r|];
    }
    forall k | 0 <= k < i ensures IsJsWhitespace(s[..i][k]) {
      assert s[..i][k] == s[k];
    }
    var tail := s[j..];
    forall k | 0 <= k < |tail| ensures IsJsWhitespace(tail[k]) {
      assert tail[k] == t[|r| + k];
    }
  }
}
