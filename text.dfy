/** The one piece of string handling the dashboard does: the blank-name test
    `!personName.trim()` that guards adding a token. */
module Text {

  /** The characters that JavaScript's `String.prototype.trim` strips:
      the ECMAScript WhiteSpace and LineTerminator code points. */
  predicate IsWhiteSpace(c: char)
  {
    var u := c as int;
    u == 0x09 || u == 0x0A || u == 0x0B || u == 0x0C || u == 0x0D || u == 0x20
    || u == 0xA0 || u == 0x1680 || (0x2000 <= u <= 0x200A)
    || u == 0x2028 || u == 0x2029 || u == 0x202F || u == 0x205F
    || u == 0x3000 || u == 0xFEFF
  }

  /** A name made of white space only (the empty name included). */
  predicate IsBlank(s: string)
  {
    forall i :: 0 <= i < |s| ==> IsWhiteSpace(s[i])
  }

  /** `s.trimStart()`: drops the leading white space. */
  function TrimStart(s: string): (r: string)
    ensures |r| <= |s| && r == s[|s| - |r|..]
    ensures r == [] || !IsWhiteSpace(r[0])
    ensures forall i :: 0 <= i < |s| - |r| ==> IsWhiteSpace(s[i])
  {
    if s == [] || !IsWhiteSpace(s[0]) then s else TrimStart(s[1..])
  }

  /** `s.trimEnd()`: drops the trailing white space. */
  function TrimEnd(s: string): (r: string)
    ensures |r| <= |s| && r == s[..|r|]
    ensures r == [] || !IsWhiteSpace(r[|r| - 1])
    ensures forall i :: |r| <= i < |s| ==> IsWhiteSpace(s[i])
  {
    if s == [] || !IsWhiteSpace(s[|s| - 1]) then s else TrimEnd(s[..|s| - 1])
  }

  /** `r` is `s` with the blank prefix `s[..i]` and a blank suffix cut off. */
  predicate CutsBlanks(s: string, i: int, r: string)
  {
    0 <= i <= |s| - |r| && r == s[i..i + |r|]
    && IsBlank(s[..i]) && IsBlank(s[i + |r|..])
  }

  /** `s.trim()`: the stretch of `s` left once a blank prefix and a blank
      suffix are cut off; it neither starts nor ends with white space. */
  function Trim(s: string): (r: string)
    ensures |r| <= |s|
    ensures r == [] || (!IsWhiteSpace(r[0]) && !IsWhiteSpace(r[|r| - 1]))
    ensures exists i :: CutsBlanks(s, i, r)
  {
    var t := TrimStart(s);
    assert TrimEnd(t) == [] || TrimEnd(t)[0] == t[0];
    TrimCutsBlanks(s);
    TrimEnd(t)
  }

  /** Trimming cuts the blank prefix `TrimStart` drops and the blank suffix
      `TrimEnd` drops, and keeps what lies between. */
  lemma TrimCutsBlanks(s: string)
    ensures CutsBlanks(s, |s| - |TrimStart(s)|, TrimEnd(TrimStart(s)))
  {
    TrimStartCutsBlank(s);
    TrimEndCutsBlank(TrimStart(s));
    CutTwice(s, TrimStart(s), TrimEnd(TrimStart(s)));
  }

  /** Cutting a blank prefix off `s` to get `t`, then a blank suffix off `t`
      to get `r`, cuts blanks off `s` around `r`. */
  lemma CutTwice(s: string, t: string, r: string)
    requires |t| <= |s| && t == s[|s| - |t|..] && IsBlank(s[..|s| - |t|])
    requires |r| <= |t| && r == t[..|r|] && IsBlank(t[|r|..])
    ensures CutsBlanks(s, |s| - |t|, r)
  {
    var i := |s| - |t|;
    var m := s[i..i + |r|];
    forall k | 0 <= k < |r|
      ensures r[k] == m[k]
    {
      assert r[k] == t[k] == s[i + k];
    }
    var u := s[i + |r|..];
    forall k | 0 <= k < |u|
      ensures IsWhiteSpace(u[k])
    {
      assert u[k] == t[|r|..][k];
    }
  }

  /** What `trimStart` drops is blank. */
  lemma TrimStartCutsBlank(s: string)
    ensures IsBlank(s[..|s| - |TrimStart(s)|])
  {
    var p := s[..|s| - |TrimStart(s)|];
    forall k | 0 <= k < |p|
      ensures IsWhiteSpace(p[k])
    {
      assert p[k] == s[k];
    }
  }

  /** What `trimEnd` drops is blank. */
  lemma TrimEndCutsBlank(t: string)
    ensures IsBlank(t[|TrimEnd(t)|..])
  {
    var n := |TrimEnd(t)|;
    var u := t[n..];
    forall k | 0 <= k < |u|
      ensures IsWhiteSpace(u[k])
    {
      assert u[k] == t[n + k];
    }
  }

  /** The guard `!s.trim()` (an empty string is falsy) holds exactly for
      blank names, in both directions. */
  lemma TrimEmptyIffBlank(s: string)
    ensures Trim(s) == [] <==> IsBlank(s)
  {
    var t := TrimStart(s);
    if Trim(s) != [] {
      var r := Trim(s);
      assert !IsWhiteSpace(r[0]);
      assert r[0] == t[0] == s[|s| - |t|];
    }
  }
}
