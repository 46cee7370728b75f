/**
 * `String.prototype.trim` as the username box uses it (script.js:34).
 * Characters are Unicode scalar values; the whitespace set is ECMAScript's
 * WhiteSpace and LineTerminator productions.
 */
module Text {

  /** ECMAScript whitespace: TAB, VT, FF, SP, NBSP, ZWNBSP, the Zs category, LF, CR, LS, PS. */
  predicate IsSpace(c: char) {
    || c == '\t' || c == '\n' || c == '\U{B}' || c == '\U{C}' || c == '\r' || c == ' '
    || c == '\U{A0}' || c == '\U{1680}' || ('\U{2000}' <= c <= '\U{200A}')
    || c == '\U{2028}' || c == '\U{2029}' || c == '\U{202F}' || c == '\U{205F}'
    || c == '\U{3000}' || c == '\U{FEFF}'
  }

  predicate AllSpace(s: string) {
    forall i :: 0 <= i < |s| ==> IsSpace(s[i])
  }

  lemma AllSpaceConcat(a: string, b: string)
    ensures AllSpace(a + b) <==> AllSpace(a) && AllSpace(b)
  {
    if AllSpace(a) && AllSpace(b) {
      forall i | 0 <= i < |a + b| ensures IsSpace((a + b)[i]) {
        if i < |a| { assert (a + b)[i] == a[i]; } else { assert (a + b)[i] == b[i - |a|]; }
      }
    }
    if AllSpace(a + b) {
      forall i | 0 <= i < |a| ensures IsSpace(a[i]) { assert a[i] == (a + b)[i]; }
      forall i | 0 <= i < |b| ensures IsSpace(b[i]) { assert b[i] == (a + b)[|a| + i]; }
    }
  }

  /** Neither end of `s` is whitespace. */
  predicate IsTrimmed(s: string) {
    s == [] || (!IsSpace(s[0]) && !IsSpace(s[|s| - 1]))
  }

  /** Drops the leading whitespace: the result is the suffix of `s` after a run of spaces. */
  function TrimStart(s: string): (r: string)
    ensures |r| <= |s| && r == s[|s| - |r|..]
    ensures AllSpace(s[..|s| - |r|])
    ensures r == [] || !IsSpace(r[0])
    decreases |s|
  {
    if s != [] && IsSpace(s[0]) then
      var r := TrimStart(s[1..]);
      LeadingStep(s, r);
      r
    else
      s
  }

  /** One more leading space in front of what `TrimStart(s[1..])` dropped. */
  lemma LeadingStep(s: string, r: string)
    requires s != [] && IsSpace(s[0])
    requires |r| <= |s| - 1 && r == s[1..][|s| - 1 - |r|..] && AllSpace(s[1..][..|s| - 1 - |r|])
    ensures r == s[|s| - |r|..] && AllSpace(s[..|s| - |r|])
  {
    assert s[..|s| - |r|] == [s[0]] + s[1..][..|s| - 1 - |r|];
    AllSpaceConcat([s[0]], s[1..][..|s| - 1 - |r|]);
  }

  /** Drops the trailing whitespace: the result is the prefix of `s` before a run of spaces. */
  function TrimEnd(s: string): (r: string)
    ensures |r| <= |s| && r == s[..|r|]
    ensures AllSpace(s[|r|..])
    ensures r == [] || !IsSpace(r[|r| - 1])
    decreases |s|
  {
    if s != [] && IsSpace(s[|s| - 1]) then
      var r := TrimEnd(s[..|s| - 1]);
      TrailingStep(s, r);
      r
    else
      s
  }

  /** One more trailing space after what `TrimEnd(s[..|s| - 1])` dropped. */
  lemma TrailingStep(s: string, r: string)
    requires s != [] && IsSpace(s[|s| - 1])
    requires |r| <= |s| - 1 && r == s[..|s| - 1][..|r|] && AllSpace(s[..|s| - 1][|r|..])
    ensures r == s[..|r|] && AllSpace(s[|r|..])
  {
    assert s[|r|..] == s[..|s| - 1][|r|..] + [s[|s| - 1]];
    AllSpaceConcat(s[..|s| - 1][|r|..], [s[|s| - 1]]);
  }

  /**
   * `s.trim()`: no whitespace at either end. `TrimSpec` says which
   * characters it keeps, `TrimEmpty` when nothing is left.
   */
  function Trim(s: string): (r: string)
    ensures IsTrimmed(r)
  {
    TrimEnd(TrimStart(s))
  }

  /** The trimmed string is empty exactly when `s` is all whitespace. */
  lemma TrimEmpty(s: string)
    ensures Trim(s) == [] <==> AllSpace(s)
  {
    SplitAround(s, TrimStart(s), Trim(s));
  }

  /** `s` is whitespace, then `r` from index `i`, then whitespace. */
  predicate Surrounds(s: string, i: int, r: string) {
    0 <= i <= |s| - |r| && r == s[i..i + |r|] && AllSpace(s[..i]) && AllSpace(s[i + |r|..])
  }

  /** The trimmed string is `s` less a run of whitespace at its start and one at its end. */
  lemma TrimSpec(s: string)
    ensures exists i :: Surrounds(s, i, Trim(s))
  {
    SplitAround(s, TrimStart(s), Trim(s));
  }

  /** `s` is the whitespace `TrimStart` dropped, then `t`; `t` is `r`, then the whitespace `TrimEnd` dropped. */
  lemma SplitAround(s: string, t: string, r: string)
    requires |t| <= |s| && t == s[|s| - |t|..] && AllSpace(s[..|s| - |t|])
    requires |r| <= |t| && r == t[..|r|] && AllSpace(t[|r|..]) && IsTrimmed(r)
    ensures Surrounds(s, |s| - |t|, r)
    ensures r == [] <==> AllSpace(s)
  {
    var i := |s| - |t|;
    assert s[i + |r|..] == t[|r|..];
    assert s[i..i + |r|] == t[..|r|];
    assert s == s[..i] + (r + t[|r|..]);
    AllSpaceConcat(r, t[|r|..]);
    AllSpaceConcat(s[..i], r + t[|r|..]);
    if r != [] {
      assert !IsSpace(r[0]);
    }
  }

  /** Trimming leaves an already trimmed string alone. */
  lemma {:induction false} TrimOfTrimmed(s: string)
    requires IsTrimmed(s)
    ensures Trim(s) == s
  {
    assert TrimStart(s) == s;
  }

  /** Trimming twice is trimming once. */
  lemma TrimIdempotent(s: string)
    ensures Trim(Trim(s)) == Trim(s)
  {
    TrimOfTrimmed(Trim(s));
  }
}
