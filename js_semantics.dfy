/** The few pieces of JavaScript's built-in behaviour that the modelled
    components rely on: optional values (null/undefined), the whitespace set
    of String.prototype.trim, and Math.round. */
module JsSemantics {

  datatype Option<+T> = None | Some(value: T)

  /** A string is falsy in JavaScript exactly when it is null/undefined or "". */
  predicate IsFalsy(s: Option<string>) {
    s.None? || s.value == ""
  }

  /** WhiteSpace and LineTerminator code points of ECMA-262 (section 12.2
      and 12.3), the characters String.prototype.trim strips. */
  predicate IsWhitespace(c: char)
  {
    c == '\U{0009}' || c == '\U{000A}' || c == '\U{000B}' || c == '\U{000C}'
    || c == '\U{000D}' || c == ' ' || c == '\U{00A0}' || c == '\U{1680}'
    || ('\U{2000}' <= c <= '\U{200A}') || c == '\U{2028}' || c == '\U{2029}'
    || c == '\U{202F}' || c == '\U{205F}' || c == '\U{3000}' || c == '\U{FEFF}'
  }

  /** Within ASCII the set is the space and the controls TAB through CR. */
  lemma WhitespaceOfAscii(c: char)
    ensures c < '\U{0080}' ==> (IsWhitespace(c) <==> c == ' ' || '\U{0009}' <= c <= '\U{000D}')
  {
  }

  predicate IsBlank(s: string) {
    forall i :: 0 <= i < |s| ==> IsWhitespace(s[i])
  }

  /** Drops leading whitespace: the result is the suffix of s after it. */
  function TrimStart(s: string): (r: string)
    ensures |r| <= |s| && r == s[|s| - |r|..]
    ensures forall i :: 0 <= i < |s| - |r| ==> IsWhitespace(s[i])
    ensures r == [] || !IsWhitespace(r[0])
    decreases |s|
  {
    if s != [] && IsWhitespace(s[0]) then TrimStart(s[1..]) else s
  }

  /** Drops trailing whitespace: the result is the prefix of s before it. */
  function TrimEnd(s: string): (r: string)
    ensures |r| <= |s| && r == s[..|r|]
    ensures forall i :: |r| <= i < |s| ==> IsWhitespace(s[i])
    ensures r == [] || !IsWhitespace(r[|r| - 1])
    decreases |s|
  {
    if s != [] && IsWhitespace(s[|s| - 1]) then TrimEnd(s[..|s| - 1]) else s
  }

  /** r is what remains of s once a blank prefix of length i and a blank
      suffix are cut off. */
  predicate BetweenBlanks(s: string, r: string, i: int) {
    0 <= i <= |s| - |r| && r == s[i..i + |r|] && IsBlank(s[..i]) && IsBlank(s[i + |r|..])
  }

  /** String.prototype.trim. */
  function Trim(s: string): (r: string)
    ensures r == "" <==> IsBlank(s)
    ensures r != "" ==> !IsWhitespace(r[0]) && !IsWhitespace(r[|r| - 1])
    ensures |r| <= |s|
    ensures exists i :: BetweenBlanks(s, r, i)
  {
    var t := TrimStart(s);
    var r := TrimEnd(t);
    TrimSlice(s, t, r);
    if t == "" then
      assert IsBlank(s) by { assert s[..|s|] == s; }
      r
    else
      assert s[|s| - |t|] == t[0];
      r
  }

  /** Trimming both ends leaves the slice between a blank prefix and a
      blank suffix. */
  lemma TrimSlice(s: string, t: string, r: string)
    requires |t| <= |s| && t == s[|s| - |t|..] && forall j :: 0 <= j < |s| - |t| ==> IsWhitespace(s[j])
    requires |r| <= |t| && r == t[..|r|] && forall j :: |r| <= j < |t| ==> IsWhitespace(t[j])
    ensures BetweenBlanks(s, r, |s| - |t|)
  {
    var i := |s| - |t|;
    var n := |r|;
    SliceOfSuffix(s, i, n);
    BlankPrefix(s, i);
    BlankSuffix(s, t, i, n);
  }

  lemma SliceOfSuffix(s: string, i: nat, n: nat)
    requires i + n <= |s|
    ensures s[i..][..n] == s[i..i + n]
  {
  }

  lemma BlankPrefix(s: string, i: nat)
    requires i <= |s| && forall j :: 0 <= j < i ==> IsWhitespace(s[j])
    ensures IsBlank(s[..i])
  {
    assert forall j :: 0 <= j < i ==> s[..i][j] == s[j];
  }

  lemma BlankSuffix(s: string, t: string, i: nat, n: nat)
    requires i + |t| == |s| && t == s[i..] && n <= |t|
    requires forall j :: n <= j < |t| ==> IsWhitespace(t[j])
    ensures IsBlank(s[i + n..])
  {
    assert s[i + n..] == t[n..];
    assert forall j :: 0 <= j < |t| - n ==> t[n..][j] == t[n + j];
  }

  /** Math.round on a finite number: the integer nearest x, halves going up. */
  function RoundHalfUp(x: real): (r: int)
    ensures r as real <= x + 0.5 < r as real + 1.0
  {
    (x + 0.5).Floor
  }

  /** Math.round(sum / n) for an integer sum and count is the integer
      expression (2*sum + n) / (2*n), with the floor division Dafny uses. */
  lemma RoundOfRatio(sum: int, n: int)
    requires n > 0
    ensures RoundHalfUp(sum as real / n as real) == (2 * sum + n) / (2 * n)
  {
    var m := 2 * n;
    var q := (2 * sum + n) / m;
    var rem := (2 * sum + n) % m;
    var y := sum as real / n as real + 0.5;
    ScaledHalf(sum, n);
    assert y * (m as real) == (q * m + rem) as real;
    FloorBetween(y, q, m, rem);
  }

  /** (sum / n + 1/2) * 2n == 2*sum + n */
  lemma ScaledHalf(sum: int, n: int)
    requires n > 0
    ensures (sum as real / n as real + 0.5) * ((2 * n) as real) == (2 * sum + n) as real
  {
    var x := sum as real / n as real;
    assert x * (n as real) == sum as real;
    calc {
      (x + 0.5) * ((2 * n) as real);
      2.0 * (x * (n as real)) + n as real;
    }
  }

  /** y.Floor == q when y * m == q * m + rem with 0 <= rem < m */
  lemma FloorBetween(y: real, q: int, m: int, rem: int)
    requires m > 0 && 0 <= rem < m
    requires y * (m as real) == (q * m + rem) as real
    ensures y.Floor == q
  {
    var mr := m as real;
    assert y * mr == (q as real) * mr + rem as real;
    CancelFactor(q as real, y, mr);
    BelowNextMultiple(y, q as real, mr, rem as real);
    CancelStrict(y, q as real + 1.0, mr);
  }

  /** y * m == q * m + rem with rem < m lies below the next multiple of m. */
  lemma BelowNextMultiple(y: real, q: real, mr: real, rem: real)
    requires rem < mr && y * mr == q * mr + rem
    ensures y * mr < (q + 1.0) * mr
  {
    calc {
      y * mr;
      == q * mr + rem;
      <  q * mr + mr;
      == (q + 1.0) * mr;
    }
  }

  lemma CancelFactor(a: real, b: real, c: real)
    requires c > 0.0 && a * c <= b * c
    ensures a <= b
  {
  }

  lemma CancelStrict(a: real, b: real, c: real)
    requires c > 0.0 && a * c < b * c
    ensures a < b
  {
  }
}
