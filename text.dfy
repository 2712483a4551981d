/**
 * The string operations the link editor relies on: JavaScript's
 * String.prototype.trim, a prefix test, and the case-insensitive
 * test /^https?:\/\//i used to decide whether the input already looks like
 * an absolute http(s) URL.
 */
module Text {

  /** The characters trim() strips: ECMAScript WhiteSpace and LineTerminator. */
  predicate IsWhitespace(c: char) {
    || c == '\t' || c == '\n' || c == '\U{000B}' || c == '\U{000C}' || c == '\r'
    || c == ' ' || c == '\U{00A0}' || c == '\U{1680}'
    || ('\U{2000}' <= c <= '\U{200A}')
    || c == '\U{2028}' || c == '\U{2029}' || c == '\U{202F}' || c == '\U{205F}'
    || c == '\U{3000}' || c == '\U{FEFF}'
  }

  predicate AllWhitespace(s: string) {
    forall i :: 0 <= i < |s| ==> IsWhitespace(s[i])
  }

  /** Neither end of s is whitespace (vacuously true of the empty string). */
  predicate Trimmed(s: string) {
    s == [] || (!IsWhitespace(s[0]) && !IsWhitespace(s[|s| - 1]))
  }

  /** Drops leading whitespace. */
  function TrimStart(s: string): string
    decreases |s|
  {
    if |s| > 0 && IsWhitespace(s[0]) then TrimStart(s[1..]) else s
  }

  /** Drops trailing whitespace. */
  function TrimEnd(s: string): string
    decreases |s|
  {
    if |s| > 0 && IsWhitespace(s[|s| - 1]) then TrimEnd(s[..|s| - 1]) else s
  }

  /** TrimStart keeps a suffix, drops only whitespace, and stops at a non-whitespace character. */
  lemma {:induction false} TrimStartSpec(s: string)
    ensures var r := TrimStart(s);
      && |r| <= |s| && r == s[|s| - |r|..]
      && AllWhitespace(s[..|s| - |r|])
      && (r == [] || !IsWhitespace(r[0]))
    decreases |s|
  {
    if |s| > 0 && IsWhitespace(s[0]) {
      var t := s[1..];
      TrimStartSpec(t);
      var r := TrimStart(t);
      assert TrimStart(s) == r;
      assert s[|s| - |r|..] == t[|t| - |r|..];
      var dropped := s[..|s| - |r|];
      assert dropped == [s[0]] + t[..|t| - |r|];
      forall i | 0 <= i < |dropped| ensures IsWhitespace(dropped[i]) {
        if i > 0 {
          assert dropped[i] == t[..|t| - |r|][i - 1];
        }
      }
    }
  }

  /** TrimEnd keeps a prefix, drops only whitespace, and stops at a non-whitespace character. */
  lemma {:induction false} TrimEndSpec(s: string)
    ensures var r := TrimEnd(s);
      && |r| <= |s| && r == s[..|r|]
      && AllWhitespace(s[|r|..])
      && (r == [] || !IsWhitespace(r[|r| - 1]))
    decreases |s|
  {
    if |s| > 0 && IsWhitespace(s[|s| - 1]) {
      var t := s[..|s| - 1];
      TrimEndSpec(t);
      var r := TrimEnd(t);
      assert TrimEnd(s) == r;
      assert s[..|r|] == t[..|r|];
      var dropped := s[|r|..];
      assert dropped == t[|r|..] + [s[|s| - 1]];
      forall i | 0 <= i < |dropped| ensures IsWhitespace(dropped[i]) {
        if i < |dropped| - 1 {
          assert dropped[i] == t[|r|..][i];
        }
      }
    }
  }

  /** String.prototype.trim. */
  function Trim(s: string): (r: string)
  {
    TrimEnd(TrimStart(s))
  }

  /**
   * Trim keeps a contiguous piece s[i..j] of its input, everything it drops
   * is whitespace, and what it keeps has no whitespace at either end.
   */
  lemma TrimSpec(s: string)
    ensures Trimmed(Trim(s))
    ensures exists i, j :: 0 <= i <= j <= |s| && Trim(s) == s[i..j]
                           && AllWhitespace(s[..i]) && AllWhitespace(s[j..])
  {
    var a := TrimStart(s);
    var r := TrimEnd(a);
    TrimStartSpec(s);
    TrimEndSpec(a);
    var i := |s| - |a|;
    var j := i + |r|;
    assert r == s[i..j];
    assert s[j..] == a[|r|..];
    if r != [] {
      assert r[0] == a[0];
    }
  }

  /** A string with no whitespace at either end is its own trim. */
  lemma {:induction false} TrimOfTrimmed(s: string)
    requires Trimmed(s)
    ensures Trim(s) == s
  {
  }

  /** Trimming twice is trimming once. */
  lemma TrimIdempotent(s: string)
    ensures Trim(Trim(s)) == Trim(s)
  {
    TrimSpec(s);
    TrimOfTrimmed(Trim(s));
  }

  /** Trim leaves nothing exactly when the input is all whitespace. */
  lemma TrimEmptyIff(s: string)
    ensures Trim(s) == [] <==> AllWhitespace(s)
  {
    var a := TrimStart(s);
    TrimStartSpec(s);
    TrimEndSpec(a);
    if Trim(s) == [] {
      assert s == s[..|s| - |a|] + a;
      assert a == a[..0] + a[0..];
    }
  }

  predicate StartsWith(s: string, prefix: string) {
    |prefix| <= |s| && s[..|prefix|] == prefix
  }

  /** ASCII lower-casing, the only folding a non-unicode /i regular expression does on these letters. */
  function LowerAscii(c: char): char {
    if 'A' <= c <= 'Z' then (c as int + 32) as char else c
  }

  /** Whether s begins with the lower-case pattern p, ignoring ASCII case. */
  predicate StartsWithIgnoringCase(s: string, p: string) {
    |p| <= |s| && forall k :: 0 <= k < |p| ==> LowerAscii(s[k]) == p[k]
  }

  /** The regular expression /^https?:\/\//i, written out character by character. */
  predicate LooksLikeUrl(s: string) {
    && |s| >= 7
    && LowerAscii(s[0]) == 'h' && LowerAscii(s[1]) == 't' && LowerAscii(s[2]) == 't' && LowerAscii(s[3]) == 'p'
    && ((s[4] == ':' && s[5] == '/' && s[6] == '/')
        || (|s| >= 8 && LowerAscii(s[4]) == 's' && s[5] == ':' && s[6] == '/' && s[7] == '/'))
  }

  /** The matcher accepts exactly the inputs that begin with "http://" or "https://" in any letter case. */
  lemma LooksLikeUrlIff(s: string)
    ensures LooksLikeUrl(s) <==> StartsWithIgnoringCase(s, "http://") || StartsWithIgnoringCase(s, "https://")
  {
    if StartsWithIgnoringCase(s, "http://") {
      assert LowerAscii(s[4]) == ':' && LowerAscii(s[5]) == '/' && LowerAscii(s[6]) == '/';
    } else if StartsWithIgnoringCase(s, "https://") {
      assert LowerAscii(s[5]) == ':' && LowerAscii(s[6]) == '/' && LowerAscii(s[7]) == '/';
    }
  }
}
