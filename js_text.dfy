/**
 * The JavaScript string built-ins the proxy relies on: `String.prototype.trim`, the `\s`
 * class of a regular expression, `toLowerCase`, `indexOf`, `slice`, `includes` and
 * `parseInt(_, 10)`. A string here is a sequence of Unicode code points, where JavaScript
 * counts UTF-16 code units; the two agree on text within the Basic Multilingual Plane.
 */
module JsText {
  import opened Wrappers

  /** ECMAScript WhiteSpace and LineTerminator code points: what `trim`, `\s` and `parseInt` skip. */
  predicate IsSpace(c: char) {
    || c == '\t' || c == '\n' || c == '\U{000B}' || c == '\U{000C}' || c == '\r' || c == ' '
    || c == '\U{00A0}' || c == '\U{1680}' || ('\U{2000}' <= c <= '\U{200A}')
    || c == '\U{2028}' || c == '\U{2029}' || c == '\U{202F}' || c == '\U{205F}'
    || c == '\U{3000}' || c == '\U{FEFF}'
  }

  predicate AllSpace(s: string) {
    forall i :: 0 <= i < |s| ==> IsSpace(s[i])
  }

  predicate NoSpace(s: string) {
    forall i :: 0 <= i < |s| ==> !IsSpace(s[i])
  }

  /** Neither end of `s` is white space (the shape every result of `trim` has). */
  predicate Trimmed(s: string) {
    s == [] || (!IsSpace(s[0]) && !IsSpace(s[|s| - 1]))
  }

  /** `s.trimStart()`: the suffix left after the leading white space. */
  function TrimStart(s: string): (r: string)
    ensures |r| <= |s|
  {
    if |s| > 0 && IsSpace(s[0]) then TrimStart(s[1..]) else s
  }

  /** `trimStart` removes a white-space prefix, and the rest starts with no white space. */
  lemma TrimStartParts(s: string)
    ensures var r := TrimStart(s);
      && r == s[|s| - |r|..]
      && AllSpace(s[..|s| - |r|])
      && (r == [] || !IsSpace(r[0]))
    decreases |s|
  {
    if |s| > 0 && IsSpace(s[0]) {
      TrimStartParts(s[1..]);
      var r := TrimStart(s[1..]);
      assert s[..|s| - |r|] == [s[0]] + s[1..][..|s| - 1 - |r|];
    }
  }

  /** `s.trimEnd()`: the prefix left after the trailing white space. */
  function TrimEnd(s: string): (r: string)
    ensures |r| <= |s|
  {
    if |s| > 0 && IsSpace(s[|s| - 1]) then TrimEnd(s[..|s| - 1]) else s
  }

  /** `trimEnd` removes a white-space suffix, and the rest ends with no white space. */
  lemma TrimEndParts(s: string)
    ensures var r := TrimEnd(s);
      && r == s[..|r|]
      && AllSpace(s[|r|..])
      && (r == [] || !IsSpace(r[|r| - 1]))
    decreases |s|
  {
    if |s| > 0 && IsSpace(s[|s| - 1]) {
      TrimEndParts(s[..|s| - 1]);
      var r := TrimEnd(s[..|s| - 1]);
      assert s[|r|..] == s[..|s| - 1][|r|..] + [s[|s| - 1]];
    }
  }

  /** `s.trim()`: `s` without its leading and trailing white space. */
  function Trim(s: string): (r: string)
    ensures |r| <= |s|
  {
    TrimEnd(TrimStart(s))
  }

  /** `trim` leaves a string with no white space at either end. */
  lemma TrimShape(s: string)
    ensures Trimmed(Trim(s))
  {
    var t := TrimStart(s);
    var r := TrimEnd(t);
    TrimStartParts(s);
    TrimEndParts(t);
    if r != [] {
      assert r[0] == t[0];
    }
  }

  /** Everything `trim` removes is white space, and what it keeps is an infix of `s`. */
  lemma TrimParts(s: string)
    ensures var k, r := |s| - |TrimStart(s)|, Trim(s);
      && (forall j :: 0 <= j < k ==> IsSpace(s[j]))
      && (forall j :: k + |r| <= j < |s| ==> IsSpace(s[j]))
      && (forall j :: k <= j < k + |r| ==> r[j - k] == s[j])
  {
    TrimRemovesBefore(s);
    TrimRemovesAfter(s);
    TrimKeepsInfix(s);
  }

  lemma TrimRemovesBefore(s: string)
    ensures forall j :: 0 <= j < |s| - |TrimStart(s)| ==> IsSpace(s[j])
  {
    TrimStartParts(s);
    AllSpacePrefix(s, |s| - |TrimStart(s)|);
  }

  lemma TrimRemovesAfter(s: string)
    ensures forall j :: |s| - |TrimStart(s)| + |Trim(s)| <= j < |s| ==> IsSpace(s[j])
  {
    var t := TrimStart(s);
    var r := TrimEnd(t);
    var k := |s| - |t|;
    TrimStartParts(s);
    TrimEndParts(t);
    assert s[k + |r|..] == t[|r|..];
    AllSpaceSuffix(s, k + |r|);
  }

  lemma TrimKeepsInfix(s: string)
    ensures forall j :: |s| - |TrimStart(s)| <= j < |s| - |TrimStart(s)| + |Trim(s)| ==>
      Trim(s)[j - (|s| - |TrimStart(s)|)] == s[j]
  {
    var t := TrimStart(s);
    var r := TrimEnd(t);
    var k := |s| - |t|;
    TrimStartParts(s);
    TrimEndParts(t);
    assert r == s[k..k + |r|];
  }

  lemma AllSpacePrefix(s: string, k: nat)
    requires k <= |s| && AllSpace(s[..k])
    ensures forall j :: 0 <= j < k ==> IsSpace(s[j])
  {
    forall j | 0 <= j < k ensures IsSpace(s[j]) {
      assert s[..k][j] == s[j];
    }
  }

  lemma AllSpaceSuffix(s: string, k: nat)
    requires k <= |s| && AllSpace(s[k..])
    ensures forall j :: k <= j < |s| ==> IsSpace(s[j])
  {
    forall j | k <= j < |s| ensures IsSpace(s[j]) {
      assert s[k..][j - k] == s[j];
    }
  }

  lemma TrimStartPadded(p: string, s: string)
    requires AllSpace(p) && (s == [] || !IsSpace(s[0]))
    ensures TrimStart(p + s) == s
    decreases |p|
  {
    if p != [] {
      assert (p + s)[1..] == p[1..] + s;
      TrimStartPadded(p[1..], s);
    }
  }

  lemma TrimEndPadded(s: string, q: string)
    requires AllSpace(q) && (s == [] || !IsSpace(s[|s| - 1]))
    ensures TrimEnd(s + q) == s
    decreases |q|
  {
    if q != [] {
      assert (s + q)[..|s + q| - 1] == s + q[..|q| - 1];
      TrimEndPadded(s, q[..|q| - 1]);
    }
  }

  /**
   * `trim` removes exactly the white-space padding: together with the contract of `Trim`
   * this says that `Trim(s)` is the one trimmed infix of `s` surrounded by white space.
   */
  lemma {:induction false} TrimPadded(p: string, s: string, q: string)
    requires AllSpace(p) && AllSpace(q) && Trimmed(s)
    ensures Trim(p + s + q) == s
  {
    if s == [] {
      assert p + s + q == p + q;
      assert AllSpace(p + q);
      TrimAllSpace(p + q);
    } else {
      assert p + s + q == p + (s + q);
      TrimStartPadded(p, s + q);
      TrimEndPadded(s, q);
    }
  }

  lemma AllSpaceConcat(a: string, b: string)
    requires AllSpace(a) && AllSpace(b)
    ensures AllSpace(a + b)
  {
    forall i | 0 <= i < |a + b| ensures IsSpace((a + b)[i]) {
      if i >= |a| { assert (a + b)[i] == b[i - |a|]; }
    }
  }

  /** `s` is `Trim(s)` with white space before and after it. */
  lemma TrimSplit(s: string) returns (before: string, after: string)
    ensures s == before + Trim(s) + after && AllSpace(before) && AllSpace(after)
  {
    var t := TrimStart(s);
    var r := TrimEnd(t);
    var k := |s| - |t|;
    TrimStartParts(s);
    TrimEndParts(t);
    before, after := s[..k], t[|r|..];
    assert t == r + after;
    SplitAround(s, k, r, after);
  }

  lemma SplitAround(s: string, k: nat, r: string, after: string)
    requires k <= |s| && s[k..] == r + after
    ensures s == s[..k] + r + after
  {
    assert s == s[..k] + s[k..];
  }

  lemma Regroup(a: string, b: string, c: string, d: string, e: string)
    ensures a + (b + c + d) + e == (a + b) + c + (d + e)
  {
  }

  /** White space added around a string never changes what `trim` gives. */
  lemma {:induction false} TrimIgnoresPadding(p: string, s: string, q: string)
    requires AllSpace(p) && AllSpace(q)
    ensures Trim(p + s + q) == Trim(s)
  {
    var before, after := TrimSplit(s);
    var t := Trim(s);
    TrimShape(s);
    Regroup(p, before, t, after, q);
    AllSpaceConcat(p, before);
    AllSpaceConcat(after, q);
    TrimPadded(p + before, t, after + q);
  }

  lemma TrimAllSpace(s: string)
    requires AllSpace(s)
    ensures TrimStart(s) == [] && Trim(s) == []
    decreases |s|
  {
    if s != [] {
      TrimAllSpace(s[1..]);
    }
  }

  /** A string with no white space at all is left as it is by `trim`. */
  lemma TrimNoSpace(s: string)
    requires NoSpace(s)
    ensures Trim(s) == s
  {
    TrimPadded([], s, []);
    assert [] + s + [] == s;
  }

  /**
   * `toLowerCase` on one code point: A-Z and U+212A KELVIN SIGN lower to a-z; every other
   * code point is kept (its JavaScript lower case, when it has one, is never in a-z).
   */
  function LowerChar(c: char): char {
    if 'A' <= c <= 'Z' then (c as int + 32) as char
    else if c == '\U{212A}' then 'k'
    else c
  }

  /** `s.toLowerCase()`, code point by code point. */
  function ToLower(s: string): (r: string)
    ensures |r| == |s|
    ensures forall i :: 0 <= i < |s| ==> r[i] == LowerChar(s[i])
  {
    if s == [] then [] else [LowerChar(s[0])] + ToLower(s[1..])
  }

  /** `s.indexOf(c)`: the first position of `c`, or -1 when `c` does not occur. */
  function IndexOf(s: string, c: char): (k: int)
    ensures -1 <= k < |s|
    ensures k == -1 <==> c !in s
    ensures 0 <= k ==> s[k] == c && c !in s[..k]
  {
    if s == [] then -1
    else if s[0] == c then 0
    else
      var k := IndexOf(s[1..], c);
      assert s == [s[0]] + s[1..];
      if k < 0 then -1 else (assert s[..k + 1] == [s[0]] + s[1..][..k]; k + 1)
  }

  /** The index `slice` uses for an argument: negative counts from the end, clamped to [0, n]. */
  function SliceIndex(x: int, n: nat): (k: nat)
    ensures k <= n
  {
    if x < 0 then (if n + x < 0 then 0 else n + x) else if x > n then n else x
  }

  /** `s.slice(start, end)`. */
  function Slice(s: string, start: int, end: int): (r: string)
    ensures |r| <= |s|
  {
    var from, to := SliceIndex(start, |s|), SliceIndex(end, |s|);
    if from >= to then "" else s[from..to]
  }

  /** `s.includes(m)`: `m` occurs in `s` at some position. */
  predicate Includes(s: string, m: string) {
    exists i | 0 <= i <= |s| - |m| :: OccursAt(s, m, i)
  }

  /** `m` occurs in `s` starting at position `i`. */
  predicate OccursAt(s: string, m: string, i: int) {
    0 <= i <= |s| - |m| && s[i..i + |m|] == m
  }

  predicate IsDigit(c: char) {
    '0' <= c <= '9'
  }

  function DigitChar(d: nat): char
    requires d < 10
  {
    ('0' as int + d) as char
  }

  /** The longest prefix of `s` made of decimal digits. */
  function DigitPrefix(s: string): (r: string)
    ensures |r| <= |s| && r == s[..|r|]
    ensures forall i :: 0 <= i < |r| ==> IsDigit(r[i])
    ensures |r| < |s| ==> !IsDigit(s[|r|])
  {
    if s != [] && IsDigit(s[0]) then [s[0]] + DigitPrefix(s[1..]) else ""
  }

  function DigitValue(c: char): nat
    requires IsDigit(c)
  {
    c as int - '0' as int
  }

  /** The value of a string of decimal digits, most significant first. */
  function DigitsValue(ds: string): nat
    requires forall i :: 0 <= i < |ds| ==> IsDigit(ds[i])
  {
    if ds == [] then 0
    else DigitsValue(ds[..|ds| - 1]) * 10 + DigitValue(ds[|ds| - 1])
  }

  /** The shortest decimal numeral of `n`, as `String(n)` writes it. */
  function Decimal(n: nat): (r: string)
    ensures r != [] && IsDigit(r[0])
    ensures forall i :: 0 <= i < |r| ==> IsDigit(r[i])
  {
    if n < 10 then [DigitChar(n)] else Decimal(n / 10) + [DigitChar(n % 10)]
  }

  /**
   * `parseInt(s, 10)`: skip leading white space, read an optional sign and then the longest
   * run of decimal digits; `None` stands for `NaN` (no digit at all).
   */
  function ParseInt(s: string): Option<int> {
    var t := TrimStart(s);
    var negative := t != [] && t[0] == '-';
    var body := if t != [] && (t[0] == '-' || t[0] == '+') then t[1..] else t;
    var ds := DigitPrefix(body);
    if ds == [] then None
    else
      var v: int := DigitsValue(ds);
      if negative then Some(-v) else Some(v)
  }

  lemma {:induction false} DecimalValue(n: nat)
    ensures DigitsValue(Decimal(n)) == n
  {
    if n >= 10 {
      var d := Decimal(n);
      assert d[..|d| - 1] == Decimal(n / 10);
      DecimalValue(n / 10);
    }
  }

  lemma {:induction false} DigitPrefixOfDigits(ds: string, rest: string)
    requires forall i :: 0 <= i < |ds| ==> IsDigit(ds[i])
    requires rest == [] || !IsDigit(rest[0])
    ensures DigitPrefix(ds + rest) == ds
  {
    if ds == [] {
      assert ds + rest == rest;
    } else {
      assert (ds + rest)[1..] == ds[1..] + rest;
      DigitPrefixOfDigits(ds[1..], rest);
      assert ds == [ds[0]] + ds[1..];
    }
  }

  /**
   * `parseInt` reads back what `String(n)` writes, whatever non-digit text follows the digits:
   * `parseInt("8443", 10) === 8443` and `parseInt("443abc", 10) === 443`.
   */
  lemma {:induction false} ParseIntDecimal(n: nat, rest: string)
    requires rest == [] || !IsDigit(rest[0])
    ensures ParseInt(Decimal(n) + rest) == Some(n)
  {
    var d := Decimal(n);
    var s := d + rest;
    assert s[0] == d[0] && IsDigit(s[0]);
    assert !IsSpace(s[0]) && s[0] != '-' && s[0] != '+';
    assert TrimStart(s) == s;
    DigitPrefixOfDigits(d, rest);
    assert DigitPrefix(s) == d;
    DecimalValue(n);
  }

  /**
   * When the first character after the leading white space is neither a digit nor a sign,
   * `parseInt` gives `NaN`: `parseInt("::1", 10)` and `parseInt(" abc", 10)`.
   */
  lemma {:induction false} ParseIntNotNumeric(p: string, c: char, rest: string)
    requires AllSpace(p) && !IsSpace(c) && !IsDigit(c) && c != '-' && c != '+'
    ensures ParseInt(p + [c] + rest) == None
  {
    TrimStartPadded(p, [c] + rest);
    assert p + [c] + rest == p + ([c] + rest);
  }
}
