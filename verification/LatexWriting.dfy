/**
  What the text operations of the LaTeX renderer write, told without those operations:
  which characters stay, what takes the place of the others, and when which form is chosen.
*/
module LatexWriting {
  import opened Arithmetic
  import opened Decimals
  import opened LatexFormat
  import opened LatexGuards
  import opened LatexMeaning
  import opened LatexText
  import opened Sequences
  import opened WhiteSpace
  import opened Wrappers

  // ----- Positions that stay -----

  /** Positions in this range, in increasing order. */
  ghost predicate Increasing(kept: seq<nat>, start: nat, end: nat) {
    && (forall i :: 0 <= i < |kept| ==> start <= kept[i] < end)
    && forall i, j :: 0 <= i < j < |kept| ==> kept[i] < kept[j]
  }

  lemma KeepFirst(k: nat, rest: seq<nat>, end: nat)
    requires Increasing(rest, k + 1, end) && k < end
    ensures Increasing([k] + rest, k, end) && forall j :: j in [k] + rest <==> j == k || j in rest
  {
  }

  // ----- Scripts -----

  predicate IsSign(c: char) { c == '=' || c == '+' || c == '-' }

  /** Nothing but white space stands between a sign and this position. */
  ghost predicate TouchesSign(s: string, j: nat) {
    exists i :: Bridges(s, i, j)
  }

  ghost predicate Bridges(s: string, i: int, j: nat) {
    && 0 <= i < |s| && j < |s| && IsSign(s[i])
    && (forall m :: i < m <= j ==> IsSpace(s[m])) && (forall m :: j <= m < i ==> IsSpace(s[m]))
  }

  /** White space that touches a sign goes, and all else stays. */
  ghost predicate StaysInScript(s: string, j: nat) {
    j < |s| && (IsSpace(s[j]) ==> !TouchesSign(s, j))
  }

  /** No sign before this position bears on white space from here on. */
  ghost predicate NoSignBehind(s: string, k: nat) {
    k < |s| && IsSpace(s[k]) ==> forall i: nat :: i < k ==> !Bridges(s, i, k)
  }

  /** Where the white space from k on ends. */
  function SpacesEnd(s: string, k: nat): (end: nat)
    requires k <= |s|
    ensures k <= end <= |s| && (forall j :: k <= j < end ==> IsSpace(s[j])) && (end < |s| ==> !IsSpace(s[end]))
    decreases |s| - k
  {
    if k < |s| && IsSpace(s[k]) then SpacesEnd(s, k + 1) else k
  }

  lemma {:induction false} SpaceRunIs(s: string, k: nat)
    requires k <= |s|
    ensures SpaceRun(s[k..]) == SpacesEnd(s, k) - k
    decreases |s| - k
  {
    if k < |s| && IsSpace(s[k]) {
      SpaceRunIs(s, k + 1);
      assert s[k..][1..] == s[k + 1..];
    }
  }

  /** A sign behind w spaces, and what comes behind the spaces after it. */
  ghost predicate SignComes(rest: string, w: nat, sign: char, tail: string, later: string) {
    w == SpaceRun(rest) < |rest| && rest[w] == sign && IsSign(sign) && tail == rest[w + 1..] && later == tail[SpaceRun(tail)..]
  }

  lemma SignComesFrom(s: string, k: nat, w: nat, next: nat)
    requires k <= w < next <= |s| && w == SpacesEnd(s, k) && IsSign(s[w]) && next == SpacesEnd(s, w + 1)
    ensures SignComes(s[k..], w - k, s[w], s[w + 1..], s[next..])
  {
    SpaceRunIs(s, k);
    SpaceRunIs(s, w + 1);
    assert s[k..][w - k] == s[w] && s[k..][w - k + 1..] == s[w + 1..];
    assert s[w + 1..][next - (w + 1)..] == s[next..];
  }

  lemma SignFirst(rest: string, w: nat, sign: char, tail: string, later: string)
    requires SignComes(rest, w, sign, tail, later)
    ensures Squeeze(rest) == [sign] + Squeeze(later)
  {
  }

  /** No sign behind the spaces at the front. */
  ghost predicate NoSignComes(rest: string, tail: string) {
    rest != "" && tail == rest[1..] && (SpaceRun(rest) < |rest| ==> !IsSign(rest[SpaceRun(rest)]))
  }

  lemma NoSignFrom(s: string, k: nat)
    requires k < |s| && (SpacesEnd(s, k) < |s| ==> !IsSign(s[SpacesEnd(s, k)]))
    ensures NoSignComes(s[k..], s[k + 1..])
  {
    SpaceRunIs(s, k);
    assert s[k..][1..] == s[k + 1..];
    assert SpacesEnd(s, k) < |s| ==> s[k..][SpacesEnd(s, k) - k] == s[SpacesEnd(s, k)];
  }

  lemma NoSignFirst(rest: string, tail: string)
    requires NoSignComes(rest, tail)
    ensures Squeeze(rest) == [rest[0]] + Squeeze(tail)
  {
  }

  /** The characters at these positions. */
  ghost predicate IsPicked(r: string, s: string, kept: seq<nat>) {
    |r| == |kept| && forall i :: 0 <= i < |kept| ==> kept[i] < |s| && r[i] == s[kept[i]]
  }

  ghost predicate AreScriptStays(s: string, k: nat, kept: seq<nat>) {
    Increasing(kept, k, |s|) && forall j :: k <= j < |s| ==> (j in kept <==> StaysInScript(s, j))
  }

  lemma {:induction false} SqueezeFrom(s: string, k: nat) returns (kept: seq<nat>)
    requires k <= |s| && NoSignBehind(s, k)
    ensures AreScriptStays(s, k, kept) && IsPicked(Squeeze(s[k..]), s, kept)
    decreases |s| - k, 1
  {
    if k == |s| {
      kept := [];
    } else {
      var w := SpacesEnd(s, k);
      if w < |s| && IsSign(s[w]) {
        kept := SqueezeSign(s, k, w, SpacesEnd(s, w + 1));
      } else {
        NoSignAhead(s, k);
        var later := SqueezeFrom(s, k + 1);
        StayFirst(s, k, later);
        PickedFirst(s, k, Squeeze(s[k + 1..]), later);
        NoSignFrom(s, k);
        NoSignFirst(s[k..], s[k + 1..]);
        kept := [k] + later;
      }
    }
  }

  lemma {:induction false} SqueezeSign(s: string, k: nat, w: nat, next: nat) returns (kept: seq<nat>)
    requires k <= w < next <= |s| && w == SpacesEnd(s, k) && IsSign(s[w]) && next == SpacesEnd(s, w + 1)
    ensures AreScriptStays(s, k, kept) && IsPicked(Squeeze(s[k..]), s, kept)
    decreases |s| - k, 0
  {
    assert NoSignBehind(s, next);
    var later := SqueezeFrom(s, next);
    SignStays(s, k, w, later);
    PickedFirst(s, w, Squeeze(s[next..]), later);
    SignComesFrom(s, k, w, next);
    SignFirst(s[k..], w - k, s[w], s[w + 1..], s[next..]);
    kept := [w] + later;
  }

  lemma StayFirst(s: string, k: nat, later: seq<nat>)
    requires k < |s| && StaysInScript(s, k) && AreScriptStays(s, k + 1, later)
    ensures AreScriptStays(s, k, [k] + later)
  {
    KeepFirst(k, later, |s|);
  }

  lemma PickedFirst(s: string, k: nat, rest: string, later: seq<nat>)
    requires k < |s| && IsPicked(rest, s, later)
    ensures IsPicked([s[k]] + rest, s, [k] + later)
  {
  }

  lemma SignStays(s: string, k: nat, w: nat, later: seq<nat>)
    requires k <= w < |s| && w == SpacesEnd(s, k) && IsSign(s[w]) && AreScriptStays(s, SpacesEnd(s, w + 1), later)
    ensures AreScriptStays(s, k, [w] + later)
  {
    forall j | k <= j < |s| ensures j in [w] + later <==> StaysInScript(s, j) {
      if j < w || w < j < SpacesEnd(s, w + 1) {
        assert Bridges(s, w, j);
      }
    }
  }

  /** Without a sign after the white space at k, k stays. */
  lemma NoSignAhead(s: string, k: nat)
    requires k < |s| && NoSignBehind(s, k)
    requires var w := SpacesEnd(s, k); w < |s| ==> !IsSign(s[w])
    ensures StaysInScript(s, k) && NoSignBehind(s, k + 1)
  {
    if IsSpace(s[k]) {
      forall i: nat | k <= i ensures !Bridges(s, i, k) {
        NotPast(s, i, k, SpacesEnd(s, k));
      }
    }
    var next := k + 1;
    forall i: nat | i < next < |s| && IsSpace(s[next]) ensures !Bridges(s, i, next) {
      if i < k && IsSpace(s[k]) {
        assert !Bridges(s, i, k);
      }
    }
  }

  /** A sign past the end of the white space does not bear on what is before it. */
  lemma NotPast(s: string, i: nat, k: nat, w: nat)
    requires k < |s| && k <= i && w == SpacesEnd(s, k) && IsSpace(s[k]) && (w < |s| ==> !IsSign(s[w]))
    ensures !Bridges(s, i, k)
  {
    if w < i && i < |s| {
      assert k <= w && !IsSpace(s[w]);
    }
  }

  lemma {:induction false} ReplacedExactly(value: string, images: map<char, char>)
    ensures ReplaceCharacters(value, images).Some? <==> forall k :: 0 <= k < |value| ==> value[k] in images
    ensures var r := ReplaceCharacters(value, images);
            r.Some? ==> |r.value| == |value| && forall k :: 0 <= k < |value| ==> value[k] in images && r.value[k] == images[value[k]]
  {
    if value != [] {
      ReplacedExactly(value[1..], images);
      assert forall k :: 0 < k < |value| ==> value[k] == value[1..][k - 1];
    }
  }

  /** All characters at these positions have a small one. */
  ghost predicate HaveImages(s: string, kept: seq<nat>, images: map<char, char>) {
    forall i :: 0 <= i < |kept| ==> kept[i] < |s| && s[kept[i]] in images
  }

  ghost predicate AreImages(r: string, s: string, kept: seq<nat>, images: map<char, char>) {
    |r| == |kept| && forall i :: 0 <= i < |kept| ==> kept[i] < |s| && s[kept[i]] in images && r[i] == images[s[kept[i]]]
  }

  lemma HaveImagesExactly(r: string, s: string, kept: seq<nat>, images: map<char, char>)
    requires IsPicked(r, s, kept)
    ensures HaveImages(s, kept, images) <==> forall i :: 0 <= i < |r| ==> r[i] in images
  {
    if HaveImages(s, kept, images) {
      assert forall i :: 0 <= i < |r| ==> r[i] == s[kept[i]];
    }
  }

  lemma PickedImages(value: string, images: map<char, char>) returns (kept: seq<nat>)
    ensures AreScriptStays(value, 0, kept)
    ensures ReplaceCharacters(Squeeze(value), images).Some? <==> HaveImages(value, kept, images)
    ensures HaveImages(value, kept, images) ==> AreImages(ReplaceCharacters(Squeeze(value), images).value, value, kept, images)
  {
    kept := SqueezeFrom(value, 0);
    assert value[0..] == value;
    ReplacedExactly(Squeeze(value), images);
    HaveImagesExactly(Squeeze(value), value, kept, images);
  }

  /**
    A superscript is written with raised characters when all its characters have one, white
    space around signs aside. Otherwise it is written after `^`, in brackets unless it is a
    single character.
  */
  lemma SuperscriptExactly(t: Tables, script: string) returns (kept: seq<nat>)
    ensures var value, r := Trim(script), FormatScript(t, script, Sup);
            && AreScriptStays(value, 0, kept)
            && (HaveImages(value, kept, t.superscripts) ==> AreImages(r, value, kept, t.superscripts))
            && (!HaveImages(value, kept, t.superscripts) ==> r == if |value| == 1 then "^" + value else "^(" + value + ")")
  {
    kept := PickedImages(Trim(script), t.superscripts);
    assert "^" + "(" == "^(";
  }

  /** A subscript is lowered in the same way, or written after `_`: words of letters need no brackets either. */
  lemma SubscriptExactly(t: Tables, script: string) returns (kept: seq<nat>)
    ensures var value, r := Trim(script), FormatScript(t, script, Sub);
            && AreScriptStays(value, 0, kept)
            && (HaveImages(value, kept, t.subscripts) ==> AreImages(r, value, kept, t.subscripts))
            && (!HaveImages(value, kept, t.subscripts) ==>
                  r == if |value| == 1 || (value != "" && forall k :: 0 <= k < |value| ==> 'a' <= value[k] <= 'z' || 'A' <= value[k] <= 'Z')
                       then "_" + value else "_(" + value + ")")
  {
    var value := Trim(script);
    kept := PickedImages(value, t.subscripts);
    assert "_" + "(" == "_(";
    assert AllAsciiLetters(value) <==> value != "" && forall k :: 0 <= k < |value| ==> 'a' <= value[k] <= 'z' || 'A' <= value[k] <= 'Z';
  }

  /** Without white space all characters count. */
  lemma AllStay(s: string, kept: seq<nat>)
    requires AreScriptStays(s, 0, kept) && forall k :: 0 <= k < |s| ==> !IsSpace(s[k])
    ensures |kept| == |s| && forall i :: 0 <= i < |s| ==> kept[i] == i
  {
    forall j: nat | j < |s| ensures j in kept {
      assert StaysInScript(s, j);
    }
    AllAreKept(kept, |s|);
  }

  lemma PlainSuperscript(t: Tables, script: string)
    requires forall k :: 0 <= k < |script| ==> !IsSpace(script[k])
    ensures var r := FormatScript(t, script, Sup);
            if forall k :: 0 <= k < |script| ==> script[k] in t.superscripts then
              |r| == |script| && forall k :: 0 <= k < |script| ==> r[k] == t.superscripts[script[k]]
            else r == (if |script| == 1 then "^" + script else "^(" + script + ")")
  {
    var kept := SuperscriptExactly(t, script);
    SpacelessIsTrimmed(script);
    AllStay(script, kept);
    HaveImagesExactly(script, script, kept, t.superscripts);
  }

  lemma PlainSubscript(t: Tables, script: string)
    requires forall k :: 0 <= k < |script| ==> !IsSpace(script[k])
    ensures var r := FormatScript(t, script, Sub);
            if forall k :: 0 <= k < |script| ==> script[k] in t.subscripts then
              |r| == |script| && forall k :: 0 <= k < |script| ==> r[k] == t.subscripts[script[k]]
            else if |script| == 1 || (script != "" && forall k :: 0 <= k < |script| ==> 'a' <= script[k] <= 'z' || 'A' <= script[k] <= 'Z')
            then r == "_" + script
            else r == "_(" + script + ")"
  {
    var kept := SubscriptExactly(t, script);
    SpacelessIsTrimmed(script);
    AllStay(script, kept);
    HaveImagesExactly(script, script, kept, t.subscripts);
  }

  lemma {:induction false} SqueezeFront(a: string, rest: string)
    requires forall k :: 0 <= k < |a| ==> !IsSpace(a[k]) && a[k] != '=' && a[k] != '+' && a[k] != '-'
    ensures Squeeze(a + rest) == a + Squeeze(rest)
  {
    var s := a + rest;
    if a == "" {
      assert s == rest;
    } else {
      SqueezeFront(a[1..], rest);
      assert s[1..] == a[1..] + rest && s[0] == a[0] && SpaceRun(s) == 0;
      NoSignFirst(s, a[1..] + rest);
      Associative([a[0]], a[1..], Squeeze(rest));
      assert [a[0]] + a[1..] == a;
    }
  }

  /** A script written with a space on both sides of a sign is the script without them. */
  lemma SpacedSign(a: string, sign: char, b: string)
    requires forall k :: 0 <= k < |a| ==> !IsSpace(a[k]) && a[k] != '=' && a[k] != '+' && a[k] != '-'
    requires (forall k :: 0 <= k < |b| ==> !IsSpace(b[k])) && (sign == '=' || sign == '+' || sign == '-')
    ensures Squeeze(a + ([' ', sign, ' '] + b)) == a + ([sign] + b)
  {
    SqueezeFront(a, [' ', sign, ' '] + b);
    SignAlone(sign, b);
  }

  lemma SignAlone(sign: char, b: string)
    requires (forall k :: 0 <= k < |b| ==> !IsSpace(b[k])) && (sign == '=' || sign == '+' || sign == '-')
    ensures Squeeze([' ', sign, ' '] + b) == [sign] + b
  {
    var s, tail := [' ', sign, ' '] + b, [' '] + b;
    SignIsNoSpace(sign);
    OneSpace([sign] + tail);
    OneSpace(b);
    assert s == [' '] + ([sign] + tail) && s[1] == sign && s[2..] == tail && tail[1..] == b;
    SignFirst(s, 1, sign, tail, b);
    SpacelessIsSqueezed(b);
  }

  lemma OneSpace(rest: string)
    requires rest == "" || !IsSpace(rest[0])
    ensures SpaceRun([' '] + rest) == 1
  {
    assert ([' '] + rest)[1..] == rest;
    SignIsNoSpace('=');
  }

  lemma SignIsNoSpace(c: char)
    requires IsSign(c)
    ensures !IsSpace(c) && IsSpace(' ')
  {
  }

  lemma {:induction false} SpacelessIsSqueezed(s: string)
    requires forall k :: 0 <= k < |s| ==> !IsSpace(s[k])
    ensures Squeeze(s) == s
  {
    if s != "" {
      SpacelessIsSqueezed(s[1..]);
      assert SpaceRun(s) == 0 && s[0 + 1..][SpaceRun(s[0 + 1..])..] == s[1..];
      assert [s[0]] + s[1..] == s;
    }
  }

  lemma {:induction false} SpacelessIsTrimmed(s: string)
    requires forall k :: 0 <= k < |s| ==> !IsSpace(s[k])
    ensures Trim(s) == s && TrimEnd(s) == s
  {
    assert TrimStart(s) == s;
  }

  lemma {:induction false} AtMost(kept: seq<nat>, n: nat)
    requires Increasing(kept, 0, n)
    ensures |kept| <= n
    decreases |kept|
  {
    if kept != [] {
      var last := |kept| - 1;
      assert Increasing(kept[..last], 0, kept[last]);
      AtMost(kept[..last], kept[last]);
    }
  }

  lemma TopIsLast(kept: seq<nat>, n: nat, i: nat, last: nat)
    requires Increasing(kept, 0, n) && i < |kept| && kept[i] == n - 1 && last == kept[|kept| - 1]
    ensures i == |kept| - 1
  {
  }

  lemma {:induction false} AllAreKept(kept: seq<nat>, n: nat)
    requires Increasing(kept, 0, n) && forall j: nat :: j < n ==> j in kept
    ensures |kept| == n && forall i :: 0 <= i < n ==> kept[i] == i
    decreases n
  {
    if n == 0 {
      AtMost(kept, 0);
    } else {
      var top: nat := n - 1;
      assert top in kept;
      var last := |kept| - 1;
      var i :| 0 <= i < |kept| && kept[i] == top;
      TopIsLast(kept, n, i, kept[last]);
      forall j: nat | j < top ensures j in kept[..last] {
        assert j in kept;
        var m :| 0 <= m < |kept| && kept[m] == j;
        assert kept[..last][m] == j;
      }
      AllAreKept(kept[..last], top);
    }
  }

  // ----- Fractions, roots -----

  ghost predicate IsSimpleText(t: Tables, s: string) {
    s != "" && forall k :: 0 <= k < |s| ==> t.isLetter(s[k]) || t.isNumber(s[k]) || s[k] == '.'
  }

  ghost predicate IsNumericText(t: Tables, s: string) {
    s != "" && forall k :: 0 <= k < |s| ==> t.isNumber(s[k]) || s[k] == '.'
  }

  /** A numerator of letters and numbers, and a denominator that is a number or one character, need no brackets. */
  lemma FractionExactly(t: Tables, numerator: string, denominator: string)
    ensures var above, below, r := Trim(numerator), Trim(denominator), FormatFraction(t, numerator, denominator);
            var short := IsNumericText(t, below) || |below| == 1;
            && (IsSimpleText(t, above) && short ==> r == above + "/" + below)
            && (IsSimpleText(t, above) && !short ==> r == above + "/(" + below + ")")
            && (!IsSimpleText(t, above) && short ==> r == "(" + above + ")/" + below)
            && (!IsSimpleText(t, above) && !short ==> r == "(" + above + ")/(" + below + ")")
  {
    SimpleExactly(t, Trim(numerator));
    SimpleExactly(t, Trim(denominator));
  }

  lemma SimpleExactly(t: Tables, s: string)
    ensures t.AllSimple(s) <==> IsSimpleText(t, s)
    ensures t.AllNumeric(s) <==> IsNumericText(t, s)
  {
    assert forall k :: 0 <= k < |s| ==> (t.Simple(s[k]) <==> t.isLetter(s[k]) || t.isNumber(s[k]) || s[k] == '.');
  }

  lemma RootExactly(t: Tables, radicand: string, symbol: string)
    ensures var value, r := Trim(radicand), FormatRoot(t, radicand, symbol);
            r == if IsSimpleText(t, value) then symbol + value else symbol + "(" + value + ")"
  {
    SimpleExactly(t, Trim(radicand));
  }

  // ----- Single characters -----

  /** The stroke goes over the first character only. */
  lemma StrikeExactly(value: string)
    requires value != ""
    ensures var r := StrikeThrough(value);
            && |r| == |value| + 3 && r[0] == ' ' && r[1] == value[0] && r[2] == '\U{0338}' && r[|r| - 1] == ' '
            && r[3..|r| - 1] == value[1..]
  {
    assert " " + [value[0], OVERLAY] == [' ', value[0], OVERLAY];
  }

  lemma {:induction false} BlackboardExactly(t: Tables, value: string)
    ensures var r := Blackboard(t, value);
            && |r| == |value|
            && forall k :: 0 <= k < |value| ==> r[k] == if value[k] in t.blackboard then t.blackboard[value[k]] else value[k]
  {
    if value != "" {
      BlackboardExactly(t, value[1..]);
      assert forall k :: 0 < k < |value| ==> value[k] == value[1..][k - 1];
    }
  }

  /** Spaces go, and other white space stays. */
  lemma {:induction false} WithoutSpacesConcat(a: string, b: string)
    ensures WithoutSpaces(a + b) == WithoutSpaces(a) + WithoutSpaces(b) && WithoutSpaces(" " + b) == WithoutSpaces(b)
    ensures b != "" && b[0] != ' ' ==> WithoutSpaces(b) == [b[0]] + WithoutSpaces(b[1..])
  {
    assert (" " + b)[1..] == b;
    if a == "" {
      assert a + b == b;
    } else {
      WithoutSpacesConcat(a[1..], b);
      assert (a + b)[1..] == a[1..] + b;
      Associative(if a[0] == ' ' then "" else [a[0]], WithoutSpaces(a[1..]), WithoutSpaces(b));
    }
  }

  /** A comma that only white space follows goes, with that white space. */
  lemma CommaGoes(a: string, blank: string)
    requires forall k :: 0 <= k < |blank| ==> IsSpace(blank[k])
    ensures WithoutComma(a + "," + blank) == a
  {
    BlankEndGoes(a + ",", blank);
    assert (a + ",")[|a|] == ',' && !IsSpace(',') && (a + ",")[..|a|] == a;
  }

  lemma {:induction false} BlankEndGoes(a: string, blank: string)
    requires (forall k :: 0 <= k < |blank| ==> IsSpace(blank[k])) && (a != "" ==> !IsSpace(a[|a| - 1]))
    ensures TrimEnd(a + blank) == a
  {
    var s := a + blank;
    if blank == "" {
      assert s == a;
    } else {
      assert s[|s| - 1] == blank[|blank| - 1] && s[..|s| - 1] == a + blank[..|blank| - 1];
      BlankEndGoes(a, blank[..|blank| - 1]);
    }
  }

  lemma OtherCommasStay(s: string)
    requires forall k :: 0 <= k < |s| && s[k] == ',' ==> exists j :: k < j < |s| && !IsSpace(s[j])
    ensures WithoutComma(s) == s
  {
    TrimEndExactly(s);
    var trimmed := TrimEnd(s);
    if trimmed != "" {
      assert s[|trimmed| - 1] == trimmed[|trimmed| - 1];
    }
  }

  // ----- Alternatives -----

  /** The word, in upper or lower case, not inside a longer word. */
  lemma WordExactly(s: string, word: string)
    requires forall k :: 0 <= k < |word| ==> 'a' <= word[k] <= 'z'
    ensures StartsWithWord(s, word) <==>
              && |word| <= |s|
              && (forall k :: 0 <= k < |word| ==> s[k] == word[k] || ('A' <= s[k] <= 'Z' && s[k] as int + 32 == word[k] as int))
              && (|s| > |word| ==> var c := s[|word|]; !('a' <= c <= 'z' || 'A' <= c <= 'Z' || '0' <= c <= '9' || c == '_'))
  {
    forall k | 0 <= k < |word| && k < |s|
      ensures LowerCase(s[k]) == word[k] <==> s[k] == word[k] || ('A' <= s[k] <= 'Z' && s[k] as int + 32 == word[k] as int)
    {
    }
  }

  /** A condition is introduced by `if`, unless it brings a word of that kind. */
  lemma CaseLineExactly(delimiter: string, value: string, condition: string, more: seq<string>)
    ensures CaseLine(delimiter, []) == delimiter + " " && CaseLine(delimiter, [value]) == delimiter + " " + WithoutComma(value)
    ensures CaseLine(delimiter, [value, condition] + more)
            == if condition == "" then delimiter + " " + WithoutComma(value)
               else if StartsWithWord(condition, "if") || StartsWithWord(condition, "when") || StartsWithWord(condition, "for")
                       || StartsWithWord(condition, "otherwise")
               then delimiter + " " + WithoutComma(value) + (" " + condition)
               else delimiter + " " + WithoutComma(value) + (" if " + condition)
  {
    assert WithoutComma("") == "";
    assert delimiter + " " + "" + "" == delimiter + " ";
    assert delimiter + " " + WithoutComma(value) + "" == delimiter + " " + WithoutComma(value);
  }

  // ----- Tables -----

  /** The longest row decides how many columns there are. */
  lemma {:induction false} ColumnCountExactly(rows: seq<seq<string>>)
    ensures forall r :: 0 <= r < |rows| ==> |rows[r]| <= ColumnCount(rows)
    ensures ColumnCount(rows) > 0 ==> exists r :: 0 <= r < |rows| && |rows[r]| == ColumnCount(rows)
  {
    if rows != [] {
      var rest := rows[1..];
      ColumnCountExactly(rest);
      assert forall r :: 0 < r < |rows| ==> rows[r] == rest[r - 1];
      if ColumnCount(rows) > |rows[0]| {
        var r :| 0 <= r < |rest| && |rest[r]| == ColumnCount(rest);
        assert |rows[r + 1]| == ColumnCount(rows);
      }
    }
  }

  /** The widest cell decides how wide a column is; a missing cell is as an empty one. */
  lemma {:induction false} ColumnWidthExactly(t: Tables, rows: seq<seq<string>>, column: nat)
    ensures forall r :: 0 <= r < |rows| ==>
              t.width(if column < |rows[r]| then rows[r][column] else "") <= ColumnWidth(t, rows, column)
    ensures ColumnWidth(t, rows, column) > 0 ==>
              exists r :: 0 <= r < |rows| && t.width(if column < |rows[r]| then rows[r][column] else "") == ColumnWidth(t, rows, column)
  {
    if rows != [] {
      var rest := rows[1..];
      ColumnWidthExactly(t, rest, column);
      assert forall r :: 0 < r < |rows| ==> rows[r] == rest[r - 1];
      if ColumnWidth(t, rows, column) > t.width(CellAt(rows[0], column)) {
        var r :| 0 <= r < |rest| && t.width(if column < |rest[r]| then rest[r][column] else "") == ColumnWidth(t, rest, column);
        assert rows[r + 1] == rest[r];
      }
    }
  }

  /** A cell in front, and protected spaces up to the width. */
  lemma PadCellExactly(t: Tables, cell: string, width: nat)
    ensures var r := PadCell(t, cell, width);
            && cell <= r && |r| - |cell| == (if width > t.width(cell) then width - t.width(cell) else 0)
            && forall k :: |cell| <= k < |r| ==> r[k] == '\U{F0002}'
  {
    var r := PadCell(t, cell, width);
    assert r[..|cell|] == cell;
  }

  /** Every row has a cell in every column, as wide as the column. */
  lemma {:induction false} PadRowExactly(t: Tables, rows: seq<seq<string>>, row: seq<string>, column: nat)
    requires column <= ColumnCount(rows)
    ensures var r := PadRow(t, rows, row, column);
            && |r| == ColumnCount(rows) - column
            && forall c :: column <= c < ColumnCount(rows) ==>
                 r[c - column] == PadCell(t, if c < |row| then row[c] else "", ColumnWidth(t, rows, c))
    decreases ColumnCount(rows) - column
  {
    if column < ColumnCount(rows) {
      PadRowExactly(t, rows, row, column + 1);
    }
  }

  /** Cells stand between bars, and the environment decides on the fences around each line. */
  lemma MatrixLineExactly(t: Tables, environment: string, rows: seq<seq<string>>, index: nat)
    requires index < |rows|
    ensures var r, last := MatrixLine(t, environment, rows, index), |rows| - 1;
            var row := JoinWith(PadRow(t, rows, rows[index], 0), " │ ");
            && (environment == "pmatrix" ==>
                  r == if index == 0 then "⎛ " + row + " ⎞" else if index == last then "⎝ " + row + " ⎠" else "⎜ " + row + " ⎟")
            && (environment == "bmatrix" ==>
                  r == if index == 0 then "⎡ " + row + " ⎤" else if index == last then "⎣ " + row + " ⎦" else "⎢ " + row + " ⎥")
            && (environment == "Bmatrix" ==>
                  r == if index == 0 then "⎧ " + row + " ⎫" else if index == last then "⎩ " + row + " ⎭" else "⎨ " + row + " ⎬")
            && (environment == "vmatrix" ==> r == "│ " + row + " │") && (environment == "Vmatrix" ==> r == "║ " + row + " ║")
            && (environment == "array" || environment == "matrix" || environment == "smallmatrix" ==> r == row)
  {
    var row := JoinWith(PadRow(t, rows, rows[index], 0), " │ ");
    var d := Delimiters(environment);
    if |d| == 6 {
      var k := if index == 0 then 0 else if index == |rows| - 1 then 4 else 2;
      FencedIs(d[k], row, d[k + 1]);
    }
  }

  lemma FencedIs(left: string, row: string, right: string)
    requires |left| == 1 && |right| == 1
    ensures left + " " + row + " " + right == [left[0], ' '] + row + [' ', right[0]]
  {
  }

  // ----- Raw source -----

  /** A part in which no row ends. */
  ghost predicate StaysOneRow(s: string) {
    forall k :: 0 <= k < |s| - 1 ==> s[k] != '\\' || s[k + 1] != '\\'
  }

  /** What follows a row break and belongs to it: nothing, or an argument in brackets in one line. */
  ghost predicate IsRowEnd(argument: string, rest: string) {
    if argument == "" then
      rest == "" || rest[0] != '[' || forall k :: 0 <= k < |rest| && rest[k] == ']' ==> exists j :: 0 <= j < k && rest[j] == '\n'
    else
      && |argument| >= 2 && argument[0] == '[' && argument[|argument| - 1] == ']'
      && forall k :: 0 < k < |argument| - 1 ==> argument[k] != ']' && argument[k] != '\n'
  }

  lemma {:induction false} NoArgument(s: string, k: nat)
    requires k <= |s| && forall i :: k <= i < |s| && s[i] == ']' ==> exists j :: k <= j < i && s[j] == '\n'
    ensures RowArgument(s, k) == -1
    decreases |s| - k
  {
    if k < |s| && s[k] != '\n' {
      assert s[k] != ']';
      NoArgument(s, k + 1);
    }
  }

  lemma {:induction false} ArgumentEnds(s: string, k: nat, end: nat)
    requires k <= end < |s| && s[end] == ']' && forall i :: k <= i < end ==> s[i] != ']' && s[i] != '\n'
    ensures RowArgument(s, k) == end
    decreases end - k
  {
    if k < end {
      ArgumentEnds(s, k + 1, end);
    }
  }

  lemma BreakHere(argument: string, rest: string)
    requires IsRowEnd(argument, rest)
    ensures SplitRows("\\\\" + argument + rest) == [""] + SplitRows(rest)
  {
    var s := "\\\\" + argument + rest;
    assert s[0] == '\\' && s[1] == '\\' && s[2..] == argument + rest;
    if argument == "" {
      assert s[2..] == rest;
      NoArgumentHere(s, rest);
    } else {
      ArgumentHere(s, argument, rest);
    }
    BreakIs(s, rest);
  }

  /** How far a row break reaches. */
  ghost predicate BreaksTo(s: string, rest: string)
    requires IsRowBreak(s)
  {
    var end := if |s| > 2 && s[2] == '[' then RowArgument(s, 3) else -1;
    rest == if end >= 0 then s[end + 1..] else s[2..]
  }

  lemma BreakIs(s: string, rest: string)
    requires IsRowBreak(s) && BreaksTo(s, rest)
    ensures SplitRows(s) == [""] + SplitRows(rest)
  {
  }

  lemma NoArgumentHere(s: string, rest: string)
    requires IsRowBreak(s) && s[2..] == rest && IsRowEnd("", rest)
    ensures BreaksTo(s, rest)
  {
    if rest != "" && rest[0] == '[' {
      forall i | 3 <= i < |s| && s[i] == ']' ensures exists j :: 3 <= j < i && s[j] == '\n' {
        assert rest[i - 2] == ']';
        var j :| 0 <= j < i - 2 && rest[j] == '\n';
        assert s[j + 2] == '\n';
      }
      NoArgument(s, 3);
    }
  }

  lemma ArgumentHere(s: string, argument: string, rest: string)
    requires IsRowBreak(s) && s[2..] == argument + rest && argument != "" && IsRowEnd(argument, rest)
    ensures BreaksTo(s, rest)
  {
    var end := 1 + |argument|;
    assert forall i :: 2 <= i < |s| ==> s[i] == s[2..][i - 2];
    assert s[end] == argument[|argument| - 1] && forall i :: 3 <= i < end ==> s[i] == argument[i - 2];
    ArgumentEnds(s, 3, end);
    assert s[end + 1..] == s[2..][|argument|..] == rest;
  }

  /** The row before a break, and the rows after it. */
  lemma {:induction false} RowEnds(row: string, argument: string, rest: string)
    requires StaysOneRow(row) && (row != "" ==> row[|row| - 1] != '\\') && IsRowEnd(argument, rest)
    ensures SplitRows(row + ("\\\\" + argument + rest)) == [row] + SplitRows(rest)
  {
    var tail := "\\\\" + argument + rest;
    var s := row + tail;
    BreakHere(argument, rest);
    if row == "" {
      assert s == tail;
    } else {
      assert s[1..] == row[1..] + tail && !IsRowBreak(s);
      RowEnds(row[1..], argument, rest);
      RowAfter(row, SplitRows(s[1..]), SplitRows(rest));
      assert SplitRows(s) == [[s[0]] + SplitRows(s[1..])[0]] + SplitRows(s[1..])[1..];
    }
  }

  lemma RowAfter(row: string, rows: seq<string>, rest: seq<string>)
    requires row != "" && rows == [row[1..]] + rest
    ensures [[row[0]] + rows[0]] + rows[1..] == [row] + rest
  {
    assert [row[0]] + row[1..] == row;
  }

  lemma {:induction false} LastRow(row: string)
    requires StaysOneRow(row)
    ensures SplitRows(row) == [row]
  {
    if row != "" {
      assert !IsRowBreak(row);
      LastRow(row[1..]);
      RowAfter(row, SplitRows(row[1..]), []);
    }
  }

  /** A first group in braces, with the white space before it, goes. */
  lemma PreambleGoes(blank: string, preamble: string, rest: string)
    requires (forall k :: 0 <= k < |blank| ==> IsSpace(blank[k])) && '}' !in preamble
    ensures StripGroup(blank + "{" + preamble + "}" + rest) == rest
  {
    var s := blank + "{" + preamble + "}" + rest;
    var w, end := |blank|, |blank| + 1 + |preamble|;
    RunEnds(s, w);
    assert s[w] == '{' && s[end] == '}' && s[end + 1..] == rest && forall k :: w < k < end ==> s[k] == preamble[k - w - 1];
    IndexFromIsFirst(s, "}", w + 1);
    assert s[end..end + 1] == "}" && OccursAt(s, "}", end);
    var index := IndexFrom(s, "}", w + 1);
    assert index >= 0 ==> s[index..index + 1][0] == s[index];
  }

  lemma {:induction false} RunEnds(s: string, w: nat)
    requires w < |s| && !IsSpace(s[w]) && forall k :: 0 <= k < w ==> IsSpace(s[k])
    ensures SpaceRun(s) == w
  {
    if w > 0 {
      RunEnds(s[1..], w - 1);
    }
  }

  /** Two cells make one, and a last cell without a partner stays. */
  lemma {:induction false} PairsExactly(cells: seq<string>)
    ensures var r := PairCells(cells);
            && |r| == (|cells| + 1) / 2
            && forall k :: 0 <= k < |r| ==> r[k] == cells[2 * k] + (if 2 * k + 1 < |cells| then cells[2 * k + 1] else "")
    decreases |cells|
  {
    if |cells| > 1 {
      PairsExactly(cells[2..]);
      var rest := PairCells(cells[2..]);
      forall k | 0 < k < |PairCells(cells)|
        ensures PairCells(cells)[k] == cells[2 * k] + (if 2 * k + 1 < |cells| then cells[2 * k + 1] else "")
      {
        assert PairCells(cells)[k] == rest[k - 1] && cells[2..][2 * (k - 1)] == cells[2 * k];
      }
    }
  }

  /** The cells of a row are read as one source; in pairs where columns are counted in pairs. */
  lemma RowSourceExactly(cells: seq<string>)
    requires cells != [] && forall k :: 0 <= k < |cells| ==> '&' !in cells[k]
    ensures RowSource(JoinWith(cells, "&"), false) == Flatten(cells)
    ensures RowSource(JoinWith(cells, "&"), true) == JoinWith(PairCells(cells), " ")
  {
    SplitJoined(cells, '&');
    JoinedByNothing(cells);
  }

  lemma {:induction false} JoinedByNothing(parts: seq<string>)
    ensures JoinWith(parts, "") == Flatten(parts)
  {
    if |parts| == 1 {
      assert parts[0] + Flatten(parts[1..]) == parts[0];
    } else if |parts| > 1 {
      JoinedByNothing(parts[1..]);
      assert parts[0] + "" == parts[0];
    }
  }

  // ----- Normalised output -----

  /** A named operator, with a space on a side where it would run into its neighbour. */
  lemma OperatorIsSpaced(t: Tables, before: string, name: string, after: string)
    requires NoStart(before) && NoEnd(before) && NoStart(name) && NoEnd(name) && NoStart(after) && NoEnd(after)
    ensures var left := if before == "" then "" else var c := before[|before| - 1];
                        if t.isLetter(c) || t.isNumber(c) || c == ')' || c == ']' || c == '}' || c == '\U{F0001}' then " " else "";
            var right := if after == "" then "" else var c := after[0];
                         if t.isLetter(c) || t.isNumber(c) || c == '√' || c == '\U{F0000}' then " " else "";
            RightSpacing(t, LeftSpacing(t, before + (['\U{F0004}'] + (name + (['\U{F0005}'] + after))), None))
            == before + (left + (name + (right + after)))
  {
    var tail := ['\U{F0005}'] + after;
    NoStartConcat(name, tail);
    var left := LeftSpaced(t, before, name + tail);
    var right := RightSpaced(t, after);
    RightOfThree(t, before, left, name, tail);
  }

  lemma NoStartConcat(a: string, b: string)
    requires NoStart(a) && NoStart(b)
    ensures NoStart(a + b)
  {
  }

  lemma RightOfThree(t: Tables, a: string, b: string, c: string, d: string)
    requires NoEnd(a) && NoEnd(b) && NoEnd(c)
    ensures RightSpacing(t, a + (b + (c + d))) == a + (b + (c + RightSpacing(t, d)))
  {
    RightOfText(t, a, b + (c + d));
    RightOfText(t, b, c + d);
    RightOfText(t, c, d);
  }

  lemma LeftSpaced(t: Tables, before: string, rest: string) returns (left: string)
    requires NoStart(before) && NoStart(rest)
    ensures left == if before == "" then "" else var c := before[|before| - 1];
                    if t.isLetter(c) || t.isNumber(c) || c == ')' || c == ']' || c == '}' || c == '\U{F0001}' then " " else ""
    ensures LeftSpacing(t, before + (['\U{F0004}'] + rest), None) == before + (left + rest) && NoEnd(left)
  {
    var tail := ['\U{F0004}'] + rest;
    LeftOfText(t, before, tail, None);
    assert tail[1..] == rest;
    LeftUntouched(t, rest, Some('\U{F0004}'));
    left := if before == "" then "" else var c := before[|before| - 1];
            if t.isLetter(c) || t.isNumber(c) || c == ')' || c == ']' || c == '}' || c == '\U{F0001}' then " " else "";
  }

  lemma RightSpaced(t: Tables, after: string) returns (right: string)
    requires NoEnd(after)
    ensures right == if after == "" then "" else var c := after[0];
                     if t.isLetter(c) || t.isNumber(c) || c == '√' || c == '\U{F0000}' then " " else ""
    ensures RightSpacing(t, ['\U{F0005}'] + after) == right + after
  {
    assert (['\U{F0005}'] + after)[1..] == after;
    RightOfText(t, after, "");
    assert after + "" == after;
    right := if after == "" then "" else var c := after[0];
             if t.isLetter(c) || t.isNumber(c) || c == '√' || c == '\U{F0000}' then " " else "";
  }

  ghost predicate NoStart(s: string) { forall k :: 0 <= k < |s| ==> s[k] != '\U{F0004}' }

  ghost predicate NoEnd(s: string) { forall k :: 0 <= k < |s| ==> s[k] != '\U{F0005}' }

  lemma {:induction false} LeftUntouched(t: Tables, s: string, previous: Option<char>)
    requires NoStart(s)
    ensures LeftSpacing(t, s, previous) == s
    decreases |s|
  {
    if s != "" {
      LeftUntouched(t, s[1..], Some(s[0]));
      assert [s[0]] + s[1..] == s;
    }
  }

  lemma {:induction false} LeftOfText(t: Tables, a: string, b: string, previous: Option<char>)
    requires NoStart(a)
    ensures LeftSpacing(t, a + b, previous) == a + LeftSpacing(t, b, if a == "" then previous else Some(a[|a| - 1]))
    decreases |a|
  {
    if a == "" {
      assert a + b == b;
    } else {
      LeftOfText(t, a[1..], b, Some(a[0]));
      assert (a + b)[1..] == a[1..] + b && [a[0]] + a[1..] == a;
      Associative([a[0]], a[1..], LeftSpacing(t, b, Some(a[|a| - 1])));
    }
  }

  lemma {:induction false} RightOfText(t: Tables, a: string, b: string)
    requires NoEnd(a)
    ensures RightSpacing(t, a + b) == a + RightSpacing(t, b)
  {
    if a == "" {
      assert a + b == b;
    } else {
      RightOfText(t, a[1..], b);
      assert (a + b)[1..] == a[1..] + b && [a[0]] + a[1..] == a;
      Associative([a[0]], a[1..], RightSpacing(t, b));
    }
  }

  /** Of a run of blanks the last one stays. */
  predicate StaysInLine(s: string, j: nat) {
    j < |s| && ((s[j] != ' ' && s[j] != '\t') || j == |s| - 1 || (s[j + 1] != ' ' && s[j + 1] != '\t'))
  }

  ghost predicate AreLineParts(s: string, k: nat, kept: seq<nat>) {
    Increasing(kept, k, |s|) && forall j :: k <= j < |s| ==> (j in kept <==> StaysInLine(s, j))
  }

  /** The characters at these positions, a space for each tab. */
  ghost predicate ArePlain(r: string, s: string, kept: seq<nat>) {
    |r| == |kept| && forall i :: 0 <= i < |kept| ==> kept[i] < |s| && r[i] == if s[kept[i]] == '\t' then ' ' else s[kept[i]]
  }

  /** Of a run of blanks one space stays, and all else stays as it is. */
  lemma {:induction false} CollapseFrom(s: string, k: nat) returns (kept: seq<nat>)
    requires k <= |s|
    ensures AreLineParts(s, k, kept) && ArePlain(Collapse(s[k..]), s, kept)
    decreases |s| - k
  {
    if k == |s| {
      kept := [];
    } else {
      var later := CollapseFrom(s, k + 1);
      var tail := s[k + 1..];
      assert s[k..][1..] == tail && (k + 1 < |s| ==> s[k..][1] == s[k + 1]);
      if IsBlank(s[k]) && k + 1 < |s| && IsBlank(s[k + 1]) {
        assert Collapse(s[k..]) == Collapse(tail) && !StaysInLine(s, k);
        kept := later;
      } else {
        assert StaysInLine(s, k);
        KeepFirst(k, later, |s|);
        CollapsedFirst(s, k, Collapse(tail), later);
        assert Collapse(s[k..]) == [if s[k] == '\t' then ' ' else s[k]] + Collapse(tail);
        kept := [k] + later;
      }
    }
  }

  lemma CollapsedFirst(s: string, k: nat, rest: string, later: seq<nat>)
    requires k < |s| && ArePlain(rest, s, later)
    ensures ArePlain([if s[k] == '\t' then ' ' else s[k]] + rest, s, [k] + later)
  {
  }

  lemma {:induction false} TidyExactly(lines: seq<string>)
    ensures forall k :: 0 <= k < |lines| ==> TidyLines(lines)[k] == Trim(Collapse(lines[k]))
  {
    if lines != [] {
      TidyExactly(lines[1..]);
    }
  }

  /** Empty lines stay in the middle only. */
  ghost predicate AreLineStays(lines: seq<string>, k: nat, kept: seq<nat>) {
    && Increasing(kept, k, |lines|)
    && forall j :: k <= j < |lines| ==> (j in kept <==> lines[j] != "" || (j != 0 && j != |lines| - 1))
  }

  ghost predicate AreLines(r: seq<string>, lines: seq<string>, kept: seq<nat>) {
    |r| == |kept| && forall i :: 0 <= i < |kept| ==> kept[i] < |lines| && r[i] == lines[kept[i]]
  }

  lemma {:induction false} KeepLinesFrom(lines: seq<string>, k: nat) returns (kept: seq<nat>)
    requires k <= |lines|
    ensures AreLineStays(lines, k, kept) && AreLines(KeepLines(lines[k..], k, |lines|), lines, kept)
    decreases |lines| - k
  {
    if k == |lines| {
      kept := [];
    } else {
      var later := KeepLinesFrom(lines, k + 1);
      assert lines[k..][1..] == lines[k + 1..];
      LineFirst(lines, k, KeepLines(lines[k + 1..], k + 1, |lines|), later);
      if lines[k] != "" || 0 < k < |lines| - 1 {
        KeepFirst(k, later, |lines|);
        kept := [k] + later;
      } else {
        kept := later;
      }
    }
  }

  lemma LineFirst(lines: seq<string>, k: nat, rest: seq<string>, later: seq<nat>)
    requires k < |lines| && AreLines(rest, lines, later)
    ensures AreLines([lines[k]] + rest, lines, [k] + later) && [] + rest == rest
  {
  }

  /** Lines are tidied one by one, and then the whole is trimmed. */
  lemma NormalizeLines(t: Tables, value: string, lines: seq<string>)
    requires lines != [] && RightSpacing(t, LeftSpacing(t, value, None)) == JoinWith(lines, "\n")
    requires forall k :: 0 <= k < |lines| ==> '\n' !in lines[k]
    ensures NormalizeOutput(t, value) == Trim(JoinWith(KeepLines(TidyLines(lines), 0, |lines|), "\n"))
  {
    SplitJoined(lines, '\n');
  }

  // ----- Marks at the end of a text -----

  /** What comes after a named operator goes before the mark at its end. */
  lemma AttachExactly(s: string, script: string)
    ensures AttachScript(s + ['\U{F0005}'], script) == s + script + ['\U{F0005}']
    ensures s == "" || s[|s| - 1] != '\U{F0005}' ==> AttachScript(s, script) == s + script
    ensures WithoutOperatorEnd(s + ['\U{F0005}']) == s
    ensures s == "" || s[|s| - 1] != '\U{F0005}' ==> WithoutOperatorEnd(s) == s
  {
    assert (s + ['\U{F0005}'])[..|s|] == s;
  }

  lemma {:induction false} DigitsBack(s: string, k: nat, start: nat)
    requires start <= k <= |s| && (forall j :: start <= j < k ==> IsDigit(s[j])) && (start > 0 ==> !IsDigit(s[start - 1]))
    ensures DigitsBefore(s, k) == start
    decreases k
  {
    if k > start {
      DigitsBack(s, k - 1, start);
    }
  }

  /** A text ends in the marker of a node when it ends so, and in none otherwise. */
  lemma TrailingExactly(s: string, digits: string)
    requires AllDigits(digits)
    ensures TrailingMarker(s + (['\U{F0000}'] + digits + ['\U{F0001}'])) == Some(ParseDecimal(digits))
  {
    var marked := s + (['\U{F0000}'] + digits + ['\U{F0001}']);
    var start := |s| + 1;
    assert marked[start..|marked| - 1] == digits && marked[start - 1] == '\U{F0000}';
    forall j | start <= j < |marked| - 1 ensures IsDigit(marked[j]) {
      assert marked[j] == digits[j - start];
    }
    DigitsBack(marked, |marked| - 1, start);
  }

  lemma NoTrailingMarker(s: string) returns (start: nat)
    ensures TrailingMarker(s).Some? ==>
              && start < |s| - 2 && s[start] == '\U{F0000}' && s[|s| - 1] == '\U{F0001}'
              && AllDigits(s[start + 1..|s| - 1])
  {
    start := 0;
    if TrailingMarker(s).Some? {
      start := DigitsBefore(s, |s| - 1) - 1;
    }
  }
}
