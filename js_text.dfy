/** The JavaScript string built-ins the backend relies on: the white-space
    class shared by `String.prototype.trim` and the regular-expression
    escape `\s`, the line terminators excluded by `.`, `trim()` itself and
    `toLowerCase()` (for the Latin letters only). */
module JsText {

  /** ECMAScript WhiteSpace and LineTerminator code points: the set `\s`
      matches and `trim()` removes. */
  predicate IsWhitespace(c: char) {
    var n := c as int;
    n == 0x09 || n == 0x0A || n == 0x0B || n == 0x0C || n == 0x0D || n == 0x20 ||
    n == 0xA0 || n == 0x1680 || (0x2000 <= n <= 0x200A) ||
    n == 0x2028 || n == 0x2029 || n == 0x202F || n == 0x205F || n == 0x3000 || n == 0xFEFF
  }

  /** The code points a regular-expression `.` does not match. */
  predicate IsLineTerminator(c: char) {
    var n := c as int;
    n == 0x0A || n == 0x0D || n == 0x2028 || n == 0x2029
  }

  predicate AllWhitespace(s: string) {
    forall k :: 0 <= k < |s| ==> IsWhitespace(s[k])
  }

  /** `true` when trimming cannot shorten `s` any more. */
  predicate IsTrimmed(s: string) {
    s == [] || (!IsWhitespace(s[0]) && !IsWhitespace(s[|s| - 1]))
  }

  function TrimStart(s: string): (r: string)
    ensures |r| <= |s|
    ensures r == [] || !IsWhitespace(r[0])
  {
    if s != [] && IsWhitespace(s[0]) then TrimStart(s[1..]) else s
  }

  function TrimEnd(s: string): (r: string)
    ensures |r| <= |s|
    ensures r != [] ==> r[0] == s[0]
    ensures r == [] || !IsWhitespace(r[|r| - 1])
  {
    if s != [] && IsWhitespace(s[|s| - 1]) then TrimEnd(s[..|s| - 1]) else s
  }

  lemma {:induction false} TrimStartSlice(s: string)
    ensures TrimStart(s) == s[|s| - |TrimStart(s)|..]
    ensures AllWhitespace(s[..|s| - |TrimStart(s)|])
  {
    if s != [] && IsWhitespace(s[0]) {
      TrimStartSlice(s[1..]);
      var r := TrimStart(s[1..]);
      assert s[..|s| - |r|] == [s[0]] + s[1..][..|s| - 1 - |r|];
    }
  }

  lemma {:induction false} TrimEndSlice(s: string)
    ensures TrimEnd(s) == s[..|TrimEnd(s)|]
    ensures AllWhitespace(s[|TrimEnd(s)|..])
  {
    if s != [] && IsWhitespace(s[|s| - 1]) {
      TrimEndSlice(s[..|s| - 1]);
      var r := TrimEnd(s[..|s| - 1]);
      assert s[|r|..] == s[..|s| - 1][|r|..] + [s[|s| - 1]];
    }
  }

  /** `String.prototype.trim`: the white space at both ends is dropped;
      what is left is a slice of `s` that starts and ends with a
      non-white-space character, or is empty. */
  function Trim(s: string): (r: string)
    ensures IsTrimmed(r)
  {
    TrimEnd(TrimStart(s))
  }

  /** What `trim()` leaves is `s` without its white-space padding `p` and
      `q`. */
  lemma TrimSplit(s: string) returns (p: string, q: string)
    ensures AllWhitespace(p) && AllWhitespace(q) && s == p + Trim(s) + q
  {
    var a := TrimStart(s);
    p := LeadingPadding(s);
    q := TrailingPadding(a);
    Regroup3(s, p, a, TrimEnd(a), q);
  }

  lemma Regroup3(s: string, p: string, a: string, t: string, q: string)
    requires s == p + a && a == t + q
    ensures s == p + t + q
  {
    assert p + t + q == p + (t + q);
  }

  /** The white space `TrimStart` drops. */
  lemma LeadingPadding(s: string) returns (p: string)
    ensures AllWhitespace(p) && s == p + TrimStart(s)
  {
    TrimStartSlice(s);
    p := s[..|s| - |TrimStart(s)|];
  }

  /** The white space `TrimEnd` drops. */
  lemma TrailingPadding(s: string) returns (q: string)
    ensures AllWhitespace(q) && s == TrimEnd(s) + q
  {
    TrimEndSlice(s);
    q := s[|TrimEnd(s)|..];
  }

  lemma {:induction false} TrimStartSkips(p: string, rest: string)
    requires AllWhitespace(p)
    requires rest == [] || !IsWhitespace(rest[0])
    ensures TrimStart(p + rest) == rest
  {
    if p == [] {
      assert p + rest == rest;
    } else {
      assert (p + rest)[1..] == p[1..] + rest;
      TrimStartSkips(p[1..], rest);
    }
  }

  lemma {:induction false} TrimEndSkips(rest: string, q: string)
    requires AllWhitespace(q)
    requires rest == [] || !IsWhitespace(rest[|rest| - 1])
    ensures TrimEnd(rest + q) == rest
  {
    if q == [] {
      assert rest + q == rest;
    } else {
      var x := rest + q;
      assert x[..|x| - 1] == rest + q[..|q| - 1];
      TrimEndSkips(rest, q[..|q| - 1]);
    }
  }

  /** Trimming is determined by the split into white-space padding and a
      trimmed core. */
  lemma TrimUnique(p: string, t: string, q: string)
    requires AllWhitespace(p) && AllWhitespace(q) && IsTrimmed(t)
    ensures Trim(p + t + q) == t
  {
    if t == [] {
      assert p + t + q == (p + q) + [];
      TrimStartSkips(p + q, []);
    } else {
      assert p + t + q == p + (t + q);
      TrimStartSkips(p, t + q);
      TrimEndSkips(t, q);
    }
  }

  /** Padding a string with white space does not change what `trim()`
      returns. */
  lemma TrimOfPadded(w1: string, s: string, w2: string)
    requires AllWhitespace(w1) && AllWhitespace(w2)
    ensures Trim(w1 + s + w2) == Trim(s)
  {
    var t := Trim(s);
    var p, q := TrimSplit(s);
    Regroup(w1, p, t, q, w2);
    AllWhitespaceAppend(w1, p);
    AllWhitespaceAppend(q, w2);
    TrimUnique(w1 + p, t, q + w2);
  }

  lemma Regroup(a: string, b: string, c: string, d: string, e: string)
    ensures a + (b + c + d) + e == (a + b) + c + (d + e)
  {
  }

  lemma AllWhitespaceAppend(a: string, b: string)
    requires AllWhitespace(a) && AllWhitespace(b)
    ensures AllWhitespace(a + b)
  {
    forall k | 0 <= k < |a + b| ensures IsWhitespace((a + b)[k]) {
      if k < |a| { assert (a + b)[k] == a[k]; } else { assert (a + b)[k] == b[k - |a|]; }
    }
  }

  lemma TrimIdempotent(s: string)
    ensures Trim(Trim(s)) == Trim(s)
  {
    var t := Trim(s);
    assert [] + t + [] == t;
    TrimUnique([], t, []);
  }

  /** `toLowerCase` on one character: the ASCII capitals and the Latin-1
      capitals U+00C0..U+00DE (except the multiplication sign U+00D7). */
  function ToLowerChar(c: char): char {
    var n := c as int;
    if ('A' as int <= n <= 'Z' as int) || (0xC0 <= n <= 0xDE && n != 0xD7) then (n + 32) as char else c
  }

  function ToLower(s: string): (r: string)
    ensures |r| == |s|
    ensures forall k :: 0 <= k < |s| ==> r[k] == ToLowerChar(s[k])
  {
    if s == [] then [] else [ToLowerChar(s[0])] + ToLower(s[1..])
  }

  lemma ToLowerAppend(a: string, b: string)
    ensures ToLower(a + b) == ToLower(a) + ToLower(b)
  {
    assert forall k :: 0 <= k < |a + b| ==> ToLower(a + b)[k] == (ToLower(a) + ToLower(b))[k];
  }

  /** Lower-casing twice is lower-casing once. */
  lemma ToLowerIdempotent(s: string)
    ensures ToLower(ToLower(s)) == ToLower(s)
  {
    assert forall k :: 0 <= k < |s| ==> ToLower(ToLower(s))[k] == ToLower(s)[k];
  }

  lemma ToLowerCharKeepsWhitespace(c: char)
    ensures IsWhitespace(ToLowerChar(c)) == IsWhitespace(c)
  {
  }

  lemma ToLowerKeepsWhitespace(s: string)
    requires AllWhitespace(s)
    ensures AllWhitespace(ToLower(s))
  {
    forall k | 0 <= k < |s| ensures IsWhitespace(ToLower(s)[k]) {
      ToLowerCharKeepsWhitespace(s[k]);
    }
  }

  lemma ToLowerKeepsTrimmed(s: string)
    requires IsTrimmed(s)
    ensures IsTrimmed(ToLower(s))
  {
    if s != [] {
      ToLowerCharKeepsWhitespace(s[0]);
      ToLowerCharKeepsWhitespace(s[|s| - 1]);
    }
  }

  /** Lower-casing never turns white space into something else or back, so
      `trim()` and `toLowerCase()` commute. */
  lemma TrimToLowerCommute(s: string)
    ensures Trim(ToLower(s)) == ToLower(Trim(s))
  {
    var t := Trim(s);
    var p, q := TrimSplit(s);
    ToLowerAppend(p + t, q);
    ToLowerAppend(p, t);
    assert ToLower(s) == ToLower(p) + ToLower(t) + ToLower(q);
    ToLowerKeepsWhitespace(p);
    ToLowerKeepsWhitespace(q);
    ToLowerKeepsTrimmed(t);
    TrimUnique(ToLower(p), ToLower(t), ToLower(q));
  }
}
