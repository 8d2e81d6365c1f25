/**
 * The string operations JavaScript and Mongoose apply to the user record:
 * the whitespace class shared by `String.prototype.trim` and the regular
 * expression escape `\s`, trimming, lower-casing and `String.length`, which
 * counts UTF-16 code units.
 */
module Text {

  /** ECMAScript WhiteSpace and LineTerminator code points (the `\s` class). */
  const WhitespaceCodes: set<int> := {
    0x09, 0x0A, 0x0B, 0x0C, 0x0D, 0x20, 0xA0, 0x1680,
    0x2000, 0x2001, 0x2002, 0x2003, 0x2004, 0x2005, 0x2006, 0x2007, 0x2008, 0x2009, 0x200A,
    0x2028, 0x2029, 0x202F, 0x205F, 0x3000, 0xFEFF
  }

  predicate IsWhitespace(c: char) {
    c as int in WhitespaceCodes
  }

  predicate AllWhitespace(s: string) {
    forall k :: 0 <= k < |s| ==> IsWhitespace(s[k])
  }

  predicate NoWhitespace(s: string) {
    forall k :: 0 <= k < |s| ==> !IsWhitespace(s[k])
  }

  /** The number of whitespace characters `s` starts with. */
  function LeadingWhitespace(s: string): (n: nat)
    ensures n <= |s| && AllWhitespace(s[..n])
    ensures n < |s| ==> !IsWhitespace(s[n])
  {
    if s != [] && IsWhitespace(s[0]) then
      var n := 1 + LeadingWhitespace(s[1..]);
      assert s[..n] == [s[0]] + s[1..][..n - 1];
      n
    else
      0
  }

  /** The number of whitespace characters `s` ends with. */
  function TrailingWhitespace(s: string): (n: nat)
    ensures n <= |s| && AllWhitespace(s[|s| - n..])
    ensures n < |s| ==> !IsWhitespace(s[|s| - n - 1])
  {
    if s != [] && IsWhitespace(s[|s| - 1]) then
      var p := s[..|s| - 1];
      var m := TrailingWhitespace(p);
      assert s[|s| - 1 - m..] == p[|p| - m..] + [s[|s| - 1]];
      m + 1
    else
      0
  }

  /** `String.prototype.trimStart`. */
  function TrimStart(s: string): string {
    s[LeadingWhitespace(s)..]
  }

  /** `String.prototype.trimEnd`. */
  function TrimEnd(s: string): string {
    s[..|s| - TrailingWhitespace(s)]
  }

  /** A string with no whitespace at either end. */
  predicate IsTrimmed(s: string) {
    s == [] || (!IsWhitespace(s[0]) && !IsWhitespace(s[|s| - 1]))
  }

  /** `r` is `s` with the whitespace `s[..i]` cut from the front and the whitespace after `r` from the back. */
  predicate IsCutOf(s: string, r: string, i: int) {
    0 <= i <= |s| - |r| && r == s[i..i + |r|] && AllWhitespace(s[..i]) && AllWhitespace(s[i + |r|..])
  }

  /**
   * `String.prototype.trim`, the `trim: true` setter of a Mongoose String path:
   * the result has no whitespace at either end.
   */
  function Trim(s: string): (r: string)
    ensures IsTrimmed(r)
  {
    var t := TrimStart(s);
    var r := TrimEnd(t);
    assert r != [] ==> r[0] == t[0] && r[|r| - 1] == t[|t| - TrailingWhitespace(t) - 1];
    r
  }

  /** What trimming removes is whitespace, from the two ends only. */
  lemma TrimCutsWhitespace(s: string)
    ensures exists i :: IsCutOf(s, Trim(s), i)
  {
    var i := LeadingWhitespace(s);
    var t := TrimStart(s);
    var n := TrailingWhitespace(t);
    var r := TrimEnd(t);
    assert t == s[i..] && r == t[..|t| - n];
    assert r == s[i..i + |r|];
    assert s[i + |r|..] == t[|t| - n..];
    assert r == Trim(s) && IsCutOf(s, r, i);
  }

  /** `String.prototype.toLowerCase` restricted to the ASCII letters. */
  function LowerChar(c: char): (r: char)
    ensures !('A' <= r <= 'Z')
    ensures 'a' <= r <= 'z' <==> 'a' <= c <= 'z' || 'A' <= c <= 'Z'
  {
    if 'A' <= c <= 'Z' then (c as int + 32) as char else c
  }

  /** `toLowerCase` on a whole string: same length, no upper-case ASCII letter left. */
  function Lower(s: string): (r: string)
    ensures |r| == |s|
    ensures forall k :: 0 <= k < |r| ==> !('A' <= r[k] <= 'Z')
  {
    seq(|s|, k requires 0 <= k < |s| => LowerChar(s[k]))
  }

  /** `String.prototype.length`: characters outside the Basic Multilingual Plane count twice. */
  function Utf16Length(s: string): (n: nat)
    ensures |s| <= n <= 2 * |s|
  {
    if s == [] then 0
    else Utf16Length(s[..|s| - 1]) + (if s[|s| - 1] as int > 0xFFFF then 2 else 1)
  }

  /** Trimming a string that has no whitespace at either end changes nothing. */
  lemma TrimOfTrimmed(s: string)
    requires IsTrimmed(s)
    ensures Trim(s) == s
  {
  }

  lemma TrimIdempotent(s: string)
    ensures Trim(Trim(s)) == Trim(s)
  {
  }

  lemma LowerIdempotent(s: string)
    ensures Lower(Lower(s)) == Lower(s)
  {
  }

  /** Lower-casing maps whitespace to whitespace and nothing else to whitespace. */
  lemma LowerCharWhitespace(c: char)
    ensures IsWhitespace(LowerChar(c)) <==> IsWhitespace(c)
  {
  }

  lemma {:induction false} LeadingWhitespaceLower(s: string)
    ensures LeadingWhitespace(Lower(s)) == LeadingWhitespace(s)
    decreases |s|
  {
    if s != [] {
      assert Lower(s)[1..] == Lower(s[1..]);
      LowerCharWhitespace(s[0]);
      if IsWhitespace(s[0]) {
        LeadingWhitespaceLower(s[1..]);
      }
    }
  }

  lemma {:induction false} TrailingWhitespaceLower(s: string)
    ensures TrailingWhitespace(Lower(s)) == TrailingWhitespace(s)
    decreases |s|
  {
    if s != [] {
      assert Lower(s)[..|s| - 1] == Lower(s[..|s| - 1]);
      LowerCharWhitespace(s[|s| - 1]);
      if IsWhitespace(s[|s| - 1]) {
        TrailingWhitespaceLower(s[..|s| - 1]);
      }
    }
  }

  /** Lower-casing works character by character, so it commutes with slicing. */
  lemma LowerSlice(s: string, i: nat, j: nat)
    requires i <= j <= |s|
    ensures Lower(s)[i..j] == Lower(s[i..j])
  {
  }

  lemma LowerTrimStart(s: string)
    ensures TrimStart(Lower(s)) == Lower(TrimStart(s))
  {
    LeadingWhitespaceLower(s);
    LowerSlice(s, LeadingWhitespace(s), |s|);
  }

  lemma LowerTrimEnd(s: string)
    ensures TrimEnd(Lower(s)) == Lower(TrimEnd(s))
  {
    TrailingWhitespaceLower(s);
    LowerSlice(s, 0, |s| - TrailingWhitespace(s));
  }

  lemma {:induction false} LeadingWhitespaceAfter(w: string, t: string)
    requires AllWhitespace(w)
    ensures LeadingWhitespace(w + t) == |w| + LeadingWhitespace(t)
    decreases |w|
  {
    if w == [] {
      assert w + t == t;
    } else {
      var x := w + t;
      assert x[0] == w[0] && x[1..] == w[1..] + t;
      LeadingWhitespaceAfter(w[1..], t);
    }
  }

  lemma {:induction false} TrailingWhitespaceBefore(t: string, w: string)
    requires AllWhitespace(w)
    ensures TrailingWhitespace(t + w) == TrailingWhitespace(t) + |w|
    decreases |w|
  {
    if w == [] {
      assert t + w == t;
    } else {
      var p := w[..|w| - 1];
      var x := t + w;
      assert x[|x| - 1] == w[|w| - 1] && x[..|x| - 1] == t + p;
      TrailingWhitespaceBefore(t, p);
    }
  }

  /** Conversely, a trimmed string padded with whitespace on both sides trims back to itself. */
  lemma TrimPadded(w1: string, s: string, w2: string)
    requires AllWhitespace(w1) && AllWhitespace(w2) && IsTrimmed(s)
    ensures Trim(w1 + s + w2) == s
  {
    var x := w1 + s + w2;
    assert x == w1 + (s + w2);
    LeadingWhitespaceAfter(w1, s + w2);
    if s == [] {
      LeadingWhitespaceAfter(w2, []);
      assert w2 + [] == w2 && s + w2 == w2;
    } else {
      assert LeadingWhitespace(s + w2) == 0 by {
        assert (s + w2)[0] == s[0];
      }
      assert TrimStart(x) == s + w2;
      TrailingWhitespaceBefore(s, w2);
      assert TrailingWhitespace(s) == 0 by {
        assert s[|s| - 1] == s[|s| - 1 - 0];
      }
      assert TrimEnd(s + w2) == s;
    }
  }

  /** Lower-casing never touches whitespace, so the order of the two setters does not matter. */
  lemma LowerTrimCommute(s: string)
    ensures Trim(Lower(s)) == Lower(Trim(s))
  {
    LowerTrimStart(s);
    LowerTrimEnd(TrimStart(s));
  }
}
