/** White space and trimming as the source language has them. */
module WhiteSpace {
  /** White space as ECMAScript's `\s` and `trim` know it. */
  predicate IsSpace(c: char) {
    || '\t' <= c <= '\r' || c == ' ' || c == '\U{A0}' || c == '\U{1680}' || '\U{2000}' <= c <= '\U{200A}'
    || c == '\U{2028}' || c == '\U{2029}' || c == '\U{202F}' || c == '\U{205F}' || c == '\U{3000}' || c == '\U{FEFF}'
  }

  function TrimStart(s: string): (t: string)
    ensures |t| <= |s|
  {
    if s != [] && IsSpace(s[0]) then TrimStart(s[1..]) else s
  }

  function TrimEnd(s: string): (t: string)
    ensures |t| <= |s| && t == s[..|t|]
  {
    if s != [] && IsSpace(s[|s| - 1]) then TrimEnd(s[..|s| - 1]) else s
  }

  function Trim(s: string): (t: string)
    ensures |t| <= |s|
  {
    TrimEnd(TrimStart(s))
  }

  predicate EndsInSpace(s: string) { s != "" && IsSpace(s[|s| - 1]) }

  lemma {:induction false} TrimEndIsTrimmed(s: string)
    ensures !EndsInSpace(TrimEnd(s))
  {
    if s != [] && IsSpace(s[|s| - 1]) {
      TrimEndIsTrimmed(s[..|s| - 1]);
    }
  }

  /** Only white space is cut off, and all of it. */
  lemma {:induction false} TrimEndExactly(s: string)
    ensures var t := TrimEnd(s);
            && (forall k :: |t| <= k < |s| ==> IsSpace(s[k])) && (t != "" ==> !IsSpace(s[|t| - 1]))
  {
    if s != [] && IsSpace(s[|s| - 1]) {
      TrimEndExactly(s[..|s| - 1]);
    }
  }

  lemma {:induction false} TrimStartExactly(s: string)
    ensures var t := TrimStart(s);
            && t == s[|s| - |t|..] && (forall k :: 0 <= k < |s| - |t| ==> IsSpace(s[k])) && (t != "" ==> !IsSpace(t[0]))
  {
    if s != [] && IsSpace(s[0]) {
      TrimStartExactly(s[1..]);
      assert forall k :: 0 < k < |s| ==> s[k] == s[1..][k - 1];
    }
  }

  lemma TrimExactly(s: string) returns (a: nat, b: nat)
    ensures a <= b <= |s| && Trim(s) == s[a..b]
    ensures (forall k :: 0 <= k < a ==> IsSpace(s[k])) && (forall k :: b <= k < |s| ==> IsSpace(s[k]))
    ensures a < b ==> !IsSpace(s[a]) && !IsSpace(s[b - 1])
  {
    TrimStartExactly(s);
    var front := TrimStart(s);
    TrimEndExactly(front);
    a := |s| - |front|;
    b := a + |TrimEnd(front)|;
    assert forall k :: 0 <= k < |front| ==> front[k] == s[a + k];
    forall k | b <= k < |s| ensures IsSpace(s[k]) {
      assert s[k] == front[k - a];
    }
  }
}
