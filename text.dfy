/** String helpers with the meaning of the Python string methods the backend calls:
    `str.strip()`, `str.replace(" ", "")`, `str.lower()` and `str(int)`. */
module Text {

  /** Python's `str.isspace()` for a single character: the whitespace code points of Unicode. */
  predicate IsSpace(c: char) {
    || c == ' ' || c == '\t' || c == '\n' || c == '\r' || c == '\U{B}' || c == '\U{C}'
    || ('\U{1C}' <= c <= '\U{1F}') || c == '\U{85}' || c == '\U{A0}' || c == '\U{1680}'
    || ('\U{2000}' <= c <= '\U{200A}') || c == '\U{2028}' || c == '\U{2029}'
    || c == '\U{202F}' || c == '\U{205F}' || c == '\U{3000}'
  }

  /** `s.lstrip()`: drops the leading whitespace, nothing else. */
  function StripLeft(s: string): (r: string)
    ensures |r| <= |s| && r == s[|s| - |r|..]
    ensures r == [] || !IsSpace(r[0])
    ensures forall i :: 0 <= i < |s| - |r| ==> IsSpace(s[i])
  {
    if s != [] && IsSpace(s[0]) then
      var r := StripLeft(s[1..]);
      assert forall i :: 1 <= i < |s| ==> s[i] == s[1..][i - 1];
      r
    else s
  }

  /** `s.rstrip()`: drops the trailing whitespace, nothing else. */
  function StripRight(s: string): (r: string)
    ensures |r| <= |s| && r == s[..|r|]
    ensures r == [] || !IsSpace(r[|r| - 1])
    ensures forall i :: |r| <= i < |s| ==> IsSpace(s[i])
  {
    if s != [] && IsSpace(s[|s| - 1]) then
      var r := StripRight(s[..|s| - 1]);
      assert forall i :: 0 <= i < |s| - 1 ==> s[i] == s[..|s| - 1][i];
      r
    else s
  }

  /** `r` is the slice `s[i..j]`, and only whitespace lies before `i` and from `j` on. */
  predicate SliceBetweenSpaces(s: string, r: string, i: int, j: int) {
    && 0 <= i <= j <= |s| && r == s[i..j]
    && (forall k :: 0 <= k < i ==> IsSpace(s[k]))
    && (forall k :: j <= k < |s| ==> IsSpace(s[k]))
  }

  /** `s.strip()`: the longest slice of `s` that neither starts nor ends with whitespace,
      obtained by removing only whitespace at both ends. */
  function Strip(s: string): (r: string)
    ensures exists i, j :: SliceBetweenSpaces(s, r, i, j)
    ensures r == [] || (!IsSpace(r[0]) && !IsSpace(r[|r| - 1]))
  {
    SliceOfStrips(s, StripLeft(s), StripRight(StripLeft(s)));
    StripRight(StripLeft(s))
  }

  /** Cutting leading whitespace off `s` to give `left`, then trailing whitespace off `left` to
      give `r`, leaves `r` a slice of `s` between whitespace, with no whitespace at either end. */
  lemma SliceOfStrips(s: string, left: string, r: string)
    requires |left| <= |s| && left == s[|s| - |left|..]
    requires left == [] || !IsSpace(left[0])
    requires forall k :: 0 <= k < |s| - |left| ==> IsSpace(s[k])
    requires |r| <= |left| && r == left[..|r|]
    requires r == [] || !IsSpace(r[|r| - 1])
    requires forall k :: |r| <= k < |left| ==> IsSpace(left[k])
    ensures SliceBetweenSpaces(s, r, |s| - |left|, |s| - |left| + |r|)
    ensures r == [] || (!IsSpace(r[0]) && !IsSpace(r[|r| - 1]))
  {
    var i := |s| - |left|;
    assert forall k :: i + |r| <= k < |s| ==> s[k] == left[k - i];
    if r != [] {
      assert r[0] == left[0];
    }
  }

  /** No character of `s` is whitespace. */
  predicate NoSpace(s: string) {
    forall k :: 0 <= k < |s| ==> !IsSpace(s[k])
  }

  /** Every character of `s` is whitespace. */
  predicate AllSpace(s: string) {
    forall k :: 0 <= k < |s| ==> IsSpace(s[k])
  }

  /** A slice between whitespace that neither starts nor ends with whitespace is the text between
      the padding of `x`, when `x[m..n]` starts and ends with something else. */
  lemma SliceWithinPadding(x: string, r: string, i: int, j: int, m: int, n: int)
    requires SliceBetweenSpaces(x, r, i, j)
    requires r == [] || (!IsSpace(r[0]) && !IsSpace(r[|r| - 1]))
    requires 0 <= m < n <= |x| && !IsSpace(x[m]) && !IsSpace(x[n - 1])
    requires forall k :: 0 <= k < m ==> IsSpace(x[k])
    requires forall k :: n <= k < |x| ==> IsSpace(x[k])
    ensures i == m && j == n
  {
    assert i <= m;
    assert n <= j;
    assert r[0] == x[i] && r[|r| - 1] == x[j - 1];
  }

  /** `before + s + after` has the whitespace of `before` and `after` around `s`. */
  lemma PaddedParts(before: string, s: string, after: string)
    requires AllSpace(before) && AllSpace(after) && s != []
    ensures forall k :: 0 <= k < |before| ==> IsSpace((before + s + after)[k])
    ensures forall k :: |before| + |s| <= k < |before + s + after| ==> IsSpace((before + s + after)[k])
    ensures (before + s + after)[|before|] == s[0]
    ensures (before + s + after)[|before| + |s| - 1] == s[|s| - 1]
    ensures (before + s + after)[|before|..|before| + |s|] == s
  {
    var x := before + s + after;
    assert forall k :: 0 <= k < |before| ==> x[k] == before[k];
    assert forall k :: |before| + |s| <= k < |x| ==> x[k] == after[k - |before| - |s|];
  }

  /** Stripping removes exactly the whitespace padding around a text that starts and ends with
      something else. */
  lemma StripPadded(before: string, s: string, after: string)
    requires AllSpace(before) && AllSpace(after)
    requires s != [] && !IsSpace(s[0]) && !IsSpace(s[|s| - 1])
    ensures Strip(before + s + after) == s
  {
    PaddedParts(before, s, after);
    var x := before + s + after;
    var r := Strip(x);
    var i, j :| SliceBetweenSpaces(x, r, i, j);
    SliceWithinPadding(x, r, i, j, |before|, |before| + |s|);
  }

  /** `s.replace(" ", "")`: removes every U+0020 and keeps every other character, in order. */
  function RemoveSpaces(s: string): (r: string)
    ensures ' ' !in r
    ensures |r| <= |s|
    ensures forall c {:trigger multiset(r)[c]} :: c != ' ' ==> multiset(r)[c] == multiset(s)[c]
    ensures ' ' !in s ==> r == s
  {
    if s == [] then []
    else
      assert s == [s[0]] + s[1..];
      var rest := RemoveSpaces(s[1..]);
      if s[0] == ' ' then rest else [s[0]] + rest
  }

  /** Removing the spaces of a concatenation removes them from each part: together with the
      one-character cases this fixes the result, kept characters in their order. */
  lemma {:induction false} RemoveSpacesAppend(a: string, b: string)
    ensures RemoveSpaces(a + b) == RemoveSpaces(a) + RemoveSpaces(b)
    ensures RemoveSpaces([' ']) == []
    ensures forall c :: c != ' ' ==> RemoveSpaces([c]) == [c]
  {
    if a != [] {
      assert (a + b)[0] == a[0] && (a + b)[1..] == a[1..] + b;
      RemoveSpacesAppend(a[1..], b);
    } else {
      assert a + b == b;
    }
  }

  /** An upper-case letter of the ASCII and Latin-1 ranges (the multiplication sign excluded). */
  predicate IsUpper(c: char) {
    ('A' <= c <= 'Z') || ('\U{C0}' <= c <= '\U{DE}' && c != '\U{D7}')
  }

  /** `c.lower()` on the ASCII and Latin-1 ranges: each such capital maps 32 code points up. */
  function LowerChar(c: char): (r: char)
    ensures !IsUpper(r)
    ensures !IsUpper(c) ==> r == c
  {
    if IsUpper(c) then (c as int + 32) as char else c
  }

  /** `s.lower()`, character by character. */
  function Lower(s: string): (r: string)
    ensures |r| == |s|
    ensures forall i :: 0 <= i < |s| ==> r[i] == LowerChar(s[i])
    ensures (forall i :: 0 <= i < |s| ==> !IsUpper(s[i])) ==> r == s
  {
    if s == [] then [] else [LowerChar(s[0])] + Lower(s[1..])
  }

  /** Lowering works character by character, so it distributes over concatenation. */
  lemma {:induction false} LowerAppend(x: string, y: string)
    ensures Lower(x + y) == Lower(x) + Lower(y)
  {
    assert forall i :: 0 <= i < |x + y| ==> Lower(x + y)[i] == (Lower(x) + Lower(y))[i] by {
      forall i | 0 <= i < |x + y| ensures Lower(x + y)[i] == (Lower(x) + Lower(y))[i] {
        if i < |x| { assert (x + y)[i] == x[i]; } else { assert (x + y)[i] == y[i - |x|]; }
      }
    }
  }

  /** The decimal digit for `d`. */
  function Digit(d: nat): (c: char)
    requires d < 10
    ensures '0' <= c <= '9'
  {
    ('0' as int + d) as char
  }

  predicate IsDigits(s: string) {
    forall i :: 0 <= i < |s| ==> '0' <= s[i] <= '9'
  }

  /** `str(n)` for a natural number: its decimal digits, without leading zeros. */
  function Decimal(n: nat): (r: string)
    ensures |r| >= 1 && IsDigits(r)
    ensures n >= 10 <==> |r| >= 2
    ensures (r[0] == '0') <==> n == 0
  {
    if n < 10 then [Digit(n)] else Decimal(n / 10) + [Digit(n % 10)]
  }

  /** The number a string of decimal digits denotes, read most significant digit first. */
  function DigitsValue(s: string): int {
    if s == [] then 0 else DigitsValue(s[..|s| - 1]) * 10 + (s[|s| - 1] as int - '0' as int)
  }

  /** Reading back the digits of `str(n)` gives `n`. */
  lemma {:induction false} DecimalValue(n: nat)
    ensures DigitsValue(Decimal(n)) == n
  {
    var d := Decimal(n);
    if n >= 10 {
      assert d[..|d| - 1] == Decimal(n / 10);
      DecimalValue(n / 10);
    }
  }

  /** Distinct numbers print differently, so `str` is injective on naturals. */
  lemma DecimalInjective(a: nat, b: nat)
    requires Decimal(a) == Decimal(b)
    ensures a == b
  {
    DecimalValue(a);
    DecimalValue(b);
  }

  /** `str(i)` for any integer: a minus sign before the digits of a negative number. */
  function IntToString(i: int): (r: string)
    ensures |r| >= 1
    ensures (r[0] == '-') <==> i < 0
  {
    if i < 0 then "-" + Decimal(-i) else Decimal(i)
  }

  /** The digits after the optional sign of `str(i)` read back as the magnitude of `i`. */
  lemma IntToStringReadsBack(i: int)
    ensures i >= 0 ==> IsDigits(IntToString(i)) && DigitsValue(IntToString(i)) == i
    ensures i < 0 ==> |IntToString(i)| >= 2 && IsDigits(IntToString(i)[1..])
                      && DigitsValue(IntToString(i)[1..]) == -i
  {
    if i < 0 {
      DecimalValue(-i);
      assert IntToString(i)[1..] == Decimal(-i);
    } else {
      DecimalValue(i);
    }
  }

  /** Different integers print differently. */
  lemma IntToStringInjective(a: int, b: int)
    requires IntToString(a) == IntToString(b)
    ensures a == b
  {
    IntToStringReadsBack(a);
    IntToStringReadsBack(b);
  }
}
