/**
 * ASCII text helpers standing in for Python's `str.strip()`, `str.lower()`,
 * `str()` of an integer and the code-point order of `str` comparisons.
 */
module Text {

  /** `str.isspace()` restricted to ASCII: tab, LF, VT, FF, CR, the four separators 0x1C-0x1F and space. */
  predicate IsSpace(c: char) {
    var n := c as int;
    n == 32 || 9 <= n <= 13 || 28 <= n <= 31
  }

  predicate AllSpace(s: string) {
    forall i :: 0 <= i < |s| ==> IsSpace(s[i])
  }

  /** True when `s` neither starts nor ends with white space. */
  predicate Trimmed(s: string) {
    s == [] || (!IsSpace(s[0]) && !IsSpace(s[|s| - 1]))
  }

  function TrimStart(s: string): (r: string)
    ensures |r| <= |s| && r == s[|s| - |r|..]
    ensures AllSpace(s[..|s| - |r|])
    ensures r == [] || !IsSpace(r[0])
  {
    if |s| > 0 && IsSpace(s[0]) then
      var r := TrimStart(s[1..]);
      assert s[..|s| - |r|] == [s[0]] + s[1..][..|s| - 1 - |r|];
      r
    else s
  }

  function TrimEnd(s: string): (r: string)
    ensures |r| <= |s| && r == s[..|r|]
    ensures AllSpace(s[|r|..])
    ensures r == [] || !IsSpace(r[|r| - 1])
  {
    if |s| > 0 && IsSpace(s[|s| - 1]) then
      var r := TrimEnd(s[..|s| - 1]);
      assert s[|r|..] == s[..|s| - 1][|r|..] + [s[|s| - 1]];
      r
    else s
  }

  /** `str.strip()`: white space removed from both ends. */
  function Strip(s: string): (r: string)
    ensures Trimmed(r)
    ensures |r| <= |s|
  {
    var t := TrimStart(s);
    var r := TrimEnd(t);
    assert r != [] ==> r[0] == t[0];
    r
  }

  lemma {:induction false} TrimStartOfSpaces(w: string, p: string)
    requires AllSpace(w)
    requires p == [] || !IsSpace(p[0])
    ensures TrimStart(w + p) == p
  {
    if w != [] {
      assert (w + p)[1..] == w[1..] + p;
      TrimStartOfSpaces(w[1..], p);
    } else {
      assert w + p == p;
    }
  }

  lemma {:induction false} TrimEndOfSpaces(p: string, w: string)
    requires AllSpace(w)
    requires p == [] || !IsSpace(p[|p| - 1])
    ensures TrimEnd(p + w) == p
  {
    if w != [] {
      assert (p + w)[..|p + w| - 1] == p + w[..|w| - 1];
      TrimEndOfSpaces(p, w[..|w| - 1]);
    } else {
      assert p + w == p;
    }
  }

  /** Stripping a trimmed word padded by white space on both sides gives back the word. */
  lemma StripPadded(w1: string, p: string, w2: string)
    requires AllSpace(w1) && AllSpace(w2)
    requires Trimmed(p)
    ensures Strip(w1 + p + w2) == p
  {
    assert w1 + p + w2 == w1 + (p + w2);
    if p == [] {
      assert AllSpace(w1 + p + w2);
      TrimStartAllSpace(w1 + p + w2);
    } else {
      assert (p + w2)[0] == p[0];
      TrimStartOfSpaces(w1, p + w2);
      TrimEndOfSpaces(p, w2);
    }
  }

  lemma {:induction false} TrimStartAllSpace(w: string)
    requires AllSpace(w)
    ensures TrimStart(w) == []
  {
    if w != [] {
      TrimStartAllSpace(w[1..]);
    }
  }

  /** Stripping a trimmed string changes nothing. */
  lemma StripOfTrimmed(s: string)
    requires Trimmed(s)
    ensures Strip(s) == s
  {
    assert AllSpace([]);
    assert [] + s + [] == s;
    StripPadded([], s, []);
  }

  /** `str.strip()` is idempotent. */
  lemma StripIdempotent(s: string)
    ensures Strip(Strip(s)) == Strip(s)
  {
    StripOfTrimmed(Strip(s));
  }

  /** A string that strips to nothing is made of white space only, and conversely. */
  lemma StripEmptyIffAllSpace(s: string)
    ensures Strip(s) == [] <==> AllSpace(s)
  {
    var t := TrimStart(s);
    if AllSpace(s) {
      TrimStartAllSpace(s);
    } else if Strip(s) == [] {
      assert t[0..] == t;
      assert s == s[..|s| - |t|] + t;
      assert AllSpace(s);
    }
  }

  /** ASCII `str.lower()` of one character. */
  function LowerChar(c: char): (r: char)
    ensures IsSpace(r) <==> IsSpace(c)
  {
    if 'A' <= c <= 'Z' then (c as int + 32) as char else c
  }

  /** ASCII `str.lower()` of a string. */
  function Lower(s: string): (r: string)
    ensures |r| == |s|
    ensures forall i :: 0 <= i < |s| ==> r[i] == LowerChar(s[i])
  {
    seq(|s|, i requires 0 <= i < |s| => LowerChar(s[i]))
  }

  /** Lower-casing keeps a string trimmed, since it maps white space to white space and nothing else to it. */
  lemma LowerKeepsTrimmed(s: string)
    requires Trimmed(s)
    ensures Trimmed(Lower(s))
  {
  }

  /** The code-point order of Python `str` comparison: `a <= b`. */
  predicate StrLe(a: string, b: string)
    decreases |a|
  {
    |a| == 0 || (|b| > 0 && (a[0] < b[0] || (a[0] == b[0] && StrLe(a[1..], b[1..]))))
  }

  /** Any two strings are comparable. */
  lemma {:induction false} StrLeTotal(a: string, b: string)
    ensures StrLe(a, b) || StrLe(b, a)
    decreases |a|
  {
    if |a| > 0 && |b| > 0 && a[0] == b[0] {
      StrLeTotal(a[1..], b[1..]);
    }
  }

  function DigitChar(d: nat): (c: char)
    requires d < 10
    ensures '0' <= c <= '9'
  {
    "0123456789"[d]
  }

  /** Decimal rendering of a natural number, as Python's `str(n)` writes it. */
  function NatToString(n: nat): (r: string)
    ensures |r| > 0
    ensures forall i :: 0 <= i < |r| ==> '0' <= r[i] <= '9'
    decreases n
  {
    if n < 10 then [DigitChar(n)] else NatToString(n / 10) + [DigitChar(n % 10)]
  }

  /** Decimal rendering of an integer, with a leading '-' when negative. */
  function IntToString(i: int): (r: string)
    ensures |r| > 0
    ensures (r[0] == '-') <==> i < 0
  {
    if i < 0 then "-" + NatToString(-i) else NatToString(i)
  }
}
