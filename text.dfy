/**
 * The string primitives the page relies on: `trim`, `toLowerCase`,
 * `Array.prototype.join`, `String.prototype.includes`, and the decimal
 * rendering of an integer inside a template literal.
 */
module Text {

  /** ECMAScript WhiteSpace and LineTerminator code points: what `trim` strips. */
  const WhiteSpace: set<char> := {
    '\t', '\n', '\U{0B}', '\U{0C}', '\r', ' ', '\U{A0}', '\U{1680}',
    '\U{2000}', '\U{2001}', '\U{2002}', '\U{2003}', '\U{2004}', '\U{2005}',
    '\U{2006}', '\U{2007}', '\U{2008}', '\U{2009}', '\U{200A}',
    '\U{2028}', '\U{2029}', '\U{202F}', '\U{205F}', '\U{3000}', '\U{FEFF}'
  }

  predicate IsWhite(c: char) {
    c in WhiteSpace
  }

  predicate AllWhite(s: string) {
    forall i :: 0 <= i < |s| ==> IsWhite(s[i])
  }

  /** The number of white-space characters `s` starts with. */
  function LeadingWhite(s: string): (k: nat)
    ensures k <= |s|
    ensures forall i :: 0 <= i < k ==> IsWhite(s[i])
    ensures k < |s| ==> !IsWhite(s[k])
  {
    if s != [] && IsWhite(s[0]) then
      var k := LeadingWhite(s[1..]);
      assert forall i :: 1 <= i < k + 1 ==> s[i] == s[1..][i - 1];
      k + 1
    else 0
  }

  /**
   * Where the part of `s` kept by trimming ends: `j` moved left, but not past
   * `i`, over the white space before it.
   */
  function TrimEnd(s: string, i: nat, j: nat): (e: nat)
    requires i <= j <= |s|
    requires forall k :: j <= k < |s| ==> IsWhite(s[k])
    ensures i <= e <= j
    ensures forall k :: e <= k < |s| ==> IsWhite(s[k])
    ensures i < e ==> !IsWhite(s[e - 1])
    decreases j
  {
    if i < j && IsWhite(s[j - 1]) then TrimEnd(s, i, j - 1) else j
  }

  /** The trimmed part is empty only when nothing but white space is left after the leading white space. */
  lemma TrimEmpty(s: string)
    ensures var i := LeadingWhite(s); TrimEnd(s, i, |s|) == i ==> i == |s|
  {
  }

  /**
   * `s.trim()`: what is left after dropping the white space at both ends.
   * It sits in `s` right after the leading white space, only white space
   * follows it, it neither starts nor ends with white space, and it is empty
   * exactly when `s` is all white space.
   */
  function Trim(s: string): (r: string)
    ensures OccursAt(s, r, LeadingWhite(s))
    ensures AllWhite(s[LeadingWhite(s) + |r|..])
    ensures r != [] ==> !IsWhite(r[0]) && !IsWhite(r[|r| - 1])
    ensures r == [] <==> AllWhite(s)
  {
    var i := LeadingWhite(s);
    var j := TrimEnd(s, i, |s|);
    TrimEmpty(s);
    assert forall m :: 0 <= m < |s| - j ==> s[j..][m] == s[j + m];
    s[i..j]
  }

  /** A string that neither starts nor ends with white space trims to itself. */
  lemma TrimUnchanged(s: string)
    requires s != [] && !IsWhite(s[0]) && !IsWhite(s[|s| - 1])
    ensures Trim(s) == s
  {
    assert LeadingWhite(s) == 0;
    assert s[0..] == s;
    assert TrimEnd(s, 0, |s|) == |s|;
  }

  /** `s.toLowerCase()` for a per-character case map `fold`. */
  function Lower(fold: char -> char, s: string): (r: string)
    ensures |r| == |s|
    ensures forall i :: 0 <= i < |s| ==> r[i] == fold(s[i])
  {
    seq(|s|, k requires 0 <= k < |s| => fold(s[k]))
  }

  /** Lowering commutes with taking an infix. */
  lemma LowerSlice(fold: char -> char, s: string, i: nat, j: nat)
    requires i <= j <= |s|
    ensures Lower(fold, s)[i..j] == Lower(fold, s[i..j])
  {
  }

  /** `parts.join(sep)`. */
  function Join(sep: string, parts: seq<string>): string
  {
    if parts == [] then []
    else if |parts| == 1 then parts[0]
    else parts[0] + sep + Join(sep, parts[1..])
  }

  /** `q` occurs in `s` starting at position `i`. */
  ghost predicate OccursAt(s: string, q: string, i: int) {
    0 <= i && i + |q| <= |s| && s[i..i + |q|] == q
  }

  /** `s.includes(q)`: `q` occurs somewhere in `s`. */
  function Includes(s: string, q: string): (b: bool)
    ensures b <==> exists i :: OccursAt(s, q, i)
    decreases |s|
  {
    if |q| <= |s| && s[..|q|] == q then
      assert OccursAt(s, q, 0);
      true
    else if s == [] then
      assert forall i :: !OccursAt(s, q, i);
      false
    else
      var b := Includes(s[1..], q);
      forall i | OccursAt(s, q, i) ensures OccursAt(s[1..], q, i - 1) {
        TailSlice(s, i - 1, i - 1 + |q|);
      }
      forall j | OccursAt(s[1..], q, j) ensures OccursAt(s, q, j + 1) {
        TailSlice(s, j, j + |q|);
      }
      b
  }

  /** A slice of the tail is the slice of the whole shifted by one. */
  lemma TailSlice(s: string, a: int, b: int)
    requires 0 <= a <= b <= |s| - 1
    ensures s[1..][a..b] == s[a + 1..b + 1]
  {
  }

  /** An occurrence survives lowering both sides with the same case map. */
  lemma OccursLower(fold: char -> char, s: string, q: string, i: int)
    requires OccursAt(s, q, i)
    ensures OccursAt(Lower(fold, s), Lower(fold, q), i)
  {
    LowerSlice(fold, s, i, i + |q|);
  }

  /** An occurrence in `x` is an occurrence in `x + y`. */
  lemma OccursInPrefix(x: string, y: string, q: string, i: int)
    requires OccursAt(x, q, i)
    ensures OccursAt(x + y, q, i)
  {
    assert (x + y)[i..i + |q|] == x[i..i + |q|];
  }

  /** An occurrence in `y` is an occurrence in `x + y`, shifted by `|x|`. */
  lemma OccursInSuffix(x: string, y: string, q: string, j: int)
    requires OccursAt(y, q, j)
    ensures OccursAt(x + y, q, |x| + j)
  {
    assert (x + y)[|x| + j..|x| + j + |q|] == y[j..j + |q|];
  }

  /** `q` occurs in `x + q + y` right after `x`. */
  lemma OccursInMiddle(x: string, q: string, y: string)
    ensures OccursAt(x + q + y, q, |x|)
  {
    assert (x + q + y)[|x|..|x| + |q|] == q;
  }

  /** Where part `k` starts in `Join(sep, parts)`. */
  function PartOffset(sep: string, parts: seq<string>, k: nat): nat
    requires k < |parts|
  {
    if k == 0 then 0 else |parts[0]| + |sep| + PartOffset(sep, parts[1..], k - 1)
  }

  /** An occurrence inside one part of a join is an occurrence in the joined string. */
  lemma {:induction false} OccursInJoin(sep: string, parts: seq<string>, k: nat, q: string, i: int)
    requires k < |parts| && OccursAt(parts[k], q, i)
    ensures OccursAt(Join(sep, parts), q, PartOffset(sep, parts, k) + i)
  {
    if |parts| == 1 {
    } else if k == 0 {
      OccursInPrefix(parts[0], sep + Join(sep, parts[1..]), q, i);
      assert parts[0] + (sep + Join(sep, parts[1..])) == Join(sep, parts);
    } else {
      OccursInJoin(sep, parts[1..], k - 1, q, i);
      OccursInSuffix(parts[0] + sep, Join(sep, parts[1..]), q, PartOffset(sep, parts[1..], k - 1) + i);
    }
  }

  /** A join ends with its last part: it is as long as the offset of that part plus the part. */
  lemma {:induction false} JoinLength(sep: string, parts: seq<string>)
    ensures parts == [] ==> Join(sep, parts) == []
    ensures parts != [] ==> |Join(sep, parts)| == PartOffset(sep, parts, |parts| - 1) + |parts[|parts| - 1]|
  {
    if |parts| > 1 {
      JoinLength(sep, parts[1..]);
      assert parts[1..][|parts| - 2] == parts[|parts| - 1];
    }
  }

  /** The separator sits right after every part but the last: consecutive parts are joined by `sep`. */
  lemma {:induction false} JoinSeparator(sep: string, parts: seq<string>, k: nat)
    requires k < |parts| - 1
    ensures OccursAt(Join(sep, parts), sep, PartOffset(sep, parts, k) + |parts[k]|)
  {
    var rest := Join(sep, parts[1..]);
    if k == 0 {
      OccursInMiddle(parts[0], sep, rest);
    } else {
      JoinSeparator(sep, parts[1..], k - 1);
      assert parts[1..][k - 1] == parts[k];
      OccursInSuffix(parts[0] + sep, rest, sep, PartOffset(sep, parts[1..], k - 1) + |parts[k]|);
    }
  }


  // ---------------------------------------------------------------
  // Decimal rendering of integers, as a template literal prints them
  // ---------------------------------------------------------------

  function DigitChar(d: nat): (c: char)
    requires d < 10
    ensures '0' <= c <= '9'
  {
    "0123456789"[d]
  }

  function DigitValue(c: char): (d: nat)
    requires '0' <= c <= '9'
    ensures d < 10 && DigitChar(d) == c
  {
    if c == '0' then 0 else if c == '1' then 1 else if c == '2' then 2
    else if c == '3' then 3 else if c == '4' then 4 else if c == '5' then 5
    else if c == '6' then 6 else if c == '7' then 7 else if c == '8' then 8 else 9
  }

  predicate IsDigits(s: string) {
    forall i :: 0 <= i < |s| ==> '0' <= s[i] <= '9'
  }

  /** Decimal digits of `n`, most significant first, no leading zero. */
  function NatToString(n: nat): (s: string)
    ensures s != [] && IsDigits(s)
    ensures |s| > 1 ==> s[0] != '0'
  {
    if n < 10 then [DigitChar(n)] else NatToString(n / 10) + [DigitChar(n % 10)]
  }

  /** The number a string of decimal digits denotes. */
  function DigitsValue(s: string): nat
    requires IsDigits(s)
  {
    if s == [] then 0 else 10 * DigitsValue(s[..|s| - 1]) + DigitValue(s[|s| - 1])
  }

  lemma {:induction false} NatToStringRoundTrip(n: nat)
    ensures DigitsValue(NatToString(n)) == n
  {
    var s := NatToString(n);
    if n >= 10 {
      NatToStringRoundTrip(n / 10);
      assert s[..|s| - 1] == NatToString(n / 10);
    }
  }

  /** `${n}` for an integer `n`: a minus sign before the digits of a negative number. */
  function IntToString(n: int): (s: string)
    ensures n >= 0 ==> s == NatToString(n)
    ensures n < 0 ==> s == ['-'] + NatToString(-n)
    ensures (s[0] == '-' && IsDigits(s[1..])) || IsDigits(s)
  {
    if n < 0 then ['-'] + NatToString(-n) else NatToString(n)
  }

  /** Reads back the integer `IntToString` wrote. */
  function ParseInt(s: string): (r: int)
    requires (s != [] && s[0] == '-' && IsDigits(s[1..])) || IsDigits(s)
  {
    if s != [] && s[0] == '-' then 0 - DigitsValue(s[1..]) else DigitsValue(s)
  }

  lemma IntToStringRoundTrip(n: int)
    ensures var s := IntToString(n); ((s != [] && s[0] == '-' && IsDigits(s[1..])) || IsDigits(s)) && ParseInt(s) == n
  {
    NatToStringRoundTrip(if n < 0 then -n else n);
    var s := IntToString(n);
    if n < 0 { assert s[1..] == NatToString(-n); }
  }

  /** The text of an integer holds no space. */
  lemma IntToStringNoSpace(n: int)
    ensures ' ' !in IntToString(n)
  {
    var s := IntToString(n);
    if n < 0 {
      var d := NatToString(-n);
      forall i | 0 <= i < |s| ensures s[i] != ' ' {
        if i > 0 { assert s[i] == d[i - 1]; }
      }
    }
  }
}
