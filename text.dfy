/**
  The JavaScript string primitives the request handler relies on:
  `String.prototype.trim`, `toLowerCase` (ASCII letters only), `startsWith`
  and `endsWith`.
*/
module Text {

  /** A character `trim` removes: ECMAScript WhiteSpace or LineTerminator
      (tab, vertical tab, form feed, the Zs space separators, the byte order
      mark, line feed, carriage return, line and paragraph separators). */
  predicate IsTrimmable(c: char)
    ensures IsTrimmable(c) ==> !('!' <= c <= '~')
  {
    || c == '\t' || c == '\n' || c == '\U{000B}' || c == '\U{000C}' || c == '\r'
    || c == ' ' || c == '\U{00A0}' || c == '\U{1680}'
    || ('\U{2000}' <= c <= '\U{200A}')
    || c == '\U{2028}' || c == '\U{2029}' || c == '\U{202F}' || c == '\U{205F}'
    || c == '\U{3000}' || c == '\U{FEFF}'
  }

  /** Drops leading trimmable characters. */
  function TrimStart(s: string): string {
    if s != [] && IsTrimmable(s[0]) then TrimStart(s[1..]) else s
  }

  /** Drops trailing trimmable characters. */
  function TrimEnd(s: string): string {
    if s != [] && IsTrimmable(s[|s| - 1]) then TrimEnd(s[..|s| - 1]) else s
  }

  /** `TrimStart` returns the suffix of `s` that starts at its first
      non-trimmable character. */
  lemma {:induction false} TrimStartSpec(s: string)
    ensures var r := TrimStart(s);
      && |r| <= |s| && r == s[|s| - |r|..]
      && (forall i :: 0 <= i < |s| - |r| ==> IsTrimmable(s[i]))
      && (r == [] || !IsTrimmable(r[0]))
  {
    if s != [] && IsTrimmable(s[0]) {
      var r := TrimStart(s[1..]);
      TrimStartSpec(s[1..]);
      assert TrimStart(s) == r;
      assert s[1..][|s| - 1 - |r|..] == s[|s| - |r|..];
    }
  }

  /** `TrimEnd` returns the prefix of `s` that ends at its last
      non-trimmable character. */
  lemma {:induction false} TrimEndSpec(s: string)
    ensures var r := TrimEnd(s);
      && |r| <= |s| && r == s[..|r|]
      && (forall i :: |r| <= i < |s| ==> IsTrimmable(s[i]))
      && (r == [] || !IsTrimmable(r[|r| - 1]))
  {
    if s != [] && IsTrimmable(s[|s| - 1]) {
      TrimEndSpec(s[..|s| - 1]);
    }
  }

  /** Removes leading and trailing trimmable characters; what is left is
      empty or starts and ends with a non-trimmable character. */
  function Trim(s: string): (r: string)
    ensures |r| <= |s|
    ensures r == [] || (!IsTrimmable(r[0]) && !IsTrimmable(r[|r| - 1]))
  {
    TrimStartSpec(s);
    TrimEndSpec(TrimStart(s));
    TrimEnd(TrimStart(s))
  }

  /** `Trim` agrees with the direct description of trimming: if `s[lo..hi]`
      is bordered by non-trimmable characters (or empty) and everything
      outside it is trimmable, then it is what `trim` returns. */
  lemma TrimIsSlice(s: string, lo: nat, hi: nat)
    requires lo <= hi <= |s|
    requires forall i :: 0 <= i < lo ==> IsTrimmable(s[i])
    requires forall i :: hi <= i < |s| ==> IsTrimmable(s[i])
    requires lo < hi ==> !IsTrimmable(s[lo]) && !IsTrimmable(s[hi - 1])
    ensures Trim(s) == s[lo..hi]
  {
    var t := TrimStart(s);
    TrimStartSpec(s);
    if lo < hi {
      // `t` starts at the first non-trimmable character, which is `s[lo]`
      assert |s| - |t| <= lo ==> t[0] == s[|s| - |t|];
      assert |s| - |t| == lo;
      var r := TrimEnd(t);
      TrimEndSpec(t);
      assert |r| >= hi - lo ==> r[|r| - 1] == s[lo + |r| - 1];
      assert |r| == hi - lo;
    }
  }

  /** Trimming twice changes nothing more. */
  lemma TrimIdempotent(s: string)
    ensures Trim(Trim(s)) == Trim(s)
  {
    var r := Trim(s);
    var t := TrimStart(s);
    TrimStartSpec(s);
    TrimEndSpec(t);
    assert r == t[..|r|];
    if r != [] {
      assert r[0] == t[0];
    }
    TrimIsSlice(r, 0, |r|);
  }

  /** A string that neither starts nor ends with a trimmable character is
      left as it is. */
  lemma TrimUnchanged(s: string)
    requires s != [] ==> !IsTrimmable(s[0]) && !IsTrimmable(s[|s| - 1])
    ensures Trim(s) == s
  {
    TrimIsSlice(s, 0, |s|);
  }

  /** ASCII `toLowerCase` of one character: `A`..`Z` map to `a`..`z`,
      everything else is unchanged. */
  function LowerChar(c: char): (d: char)
    ensures 'A' <= c <= 'Z' ==> d as int == c as int + 32
    ensures !('A' <= c <= 'Z') ==> d == c
  {
    if 'A' <= c <= 'Z' then (c as int + 32) as char else c
  }

  /** Lower-cases every ASCII letter of a string. */
  function ToLower(s: string): (r: string)
    ensures |r| == |s|
    ensures forall i :: 0 <= i < |s| ==> r[i] == LowerChar(s[i])
  {
    seq(|s|, i requires 0 <= i < |s| => LowerChar(s[i]))
  }

  /** Whether `p` is a prefix of `s`. */
  predicate StartsWith(s: string, p: string)
    ensures StartsWith(s, p) <==> |p| <= |s| && forall i :: 0 <= i < |p| ==> s[i] == p[i]
  {
    |p| <= |s| && s[..|p|] == p
  }

  /** Whether `p` is a suffix of `s`. */
  predicate EndsWith(s: string, p: string)
    ensures EndsWith(s, p) <==> |p| <= |s| && forall i :: 0 <= i < |p| ==> s[|s| - |p| + i] == p[i]
  {
    |p| <= |s| && s[|s| - |p|..] == p
  }
}
