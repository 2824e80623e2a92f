/**
  Conditions on LaTeX source that a caller can check before rendering it, and what cutting
  source into rows and environments does to them.

  Two places of a rendered text break the markers of layout nodes: the argument of `\not`,
  whose first character is struck through, and the texts of an operator with its limits
  above and below, which are placed as they are. The source is guarded when neither place
  can receive a marker: what stands there is a single character, a command that reads no
  argument, or a group of such. A command name may be put together from two cells of an
  aligned row, so the cell separator `&` is looked through where a command is searched.
*/
module LatexGuards {
  import opened LatexFormat
  import opened LatexText
  import opened Sequences
  import opened WhiteSpace
  import opened Wrappers

  // ----- Commands without arguments -----

  /** Where the letters from k on end. */
  function LettersEnd(s: string, k: nat): (end: nat)
    requires k <= |s|
    ensures k <= end <= |s| && (end < |s| ==> !IsAsciiLetter(s[end]))
    ensures forall j :: k <= j < end ==> IsAsciiLetter(s[j])
    decreases |s| - k
  {
    if k < |s| && IsAsciiLetter(s[k]) then LettersEnd(s, k + 1) else k
  }

  /** The command stands for a text of its own, without arguments and without limits. */
  predicate IsConstant(t: Tables, command: string) {
    && command !in t.limitOperators && command !in t.displayLimitSymbols && command != "not"
    && (command in t.spacing || command in t.negativeSpacing || command in t.ignored || command in t.symbols
        || command in t.namedOperators || command in t.sizes)
  }

  /** At k there is such a command, and its name ends there. */
  predicate ConstantAt(t: Tables, s: string, k: nat)
    requires k < |s| && s[k] == '\\'
  {
    if k + 1 == |s| then true
    else
      var end := if IsAsciiLetter(s[k + 1]) then LettersEnd(s, k + 1) else k + 2;
      IsConstant(t, s[k + 1..end]) && s[k + 1] != '&' && (end < |s| ==> s[end] != '&')
  }

  /**
    From k on, up to the brace that closes `depth` groups inside the current one, all
    commands are of that kind, and every script has an argument.
  */
  predicate IsTame(t: Tables, s: string, k: nat, depth: nat)
    decreases |s| - k
  {
    if k >= |s| then true
    else if s[k] == '}' then depth == 0 || IsTame(t, s, k + 1, depth - 1)
    else if s[k] == '{' then IsTame(t, s, k + 1, depth + 1)
    else if s[k] == '\\' then ConstantAt(t, s, k) && IsTame(t, s, k + 2, depth)
    else
      && (s[k] == '_' || s[k] == '^' ==> k + 1 < |s| ==> StartsArgument(s[k + 1]))
      && IsTame(t, s, k + 1, depth)
  }

  predicate StartsArgument(c: char) { c != '}' && c != '&' && !IsSpace(c) }

  /** After white space the argument at k is a character, such a command, or a group of such. */
  predicate IsPlainArgument(t: Tables, s: string, k: nat, star: bool)
    decreases |s| - k
  {
    if k >= |s| then true
    else if IsSpace(s[k]) || s[k] == '&' || (star && s[k] == '*') then IsPlainArgument(t, s, k + 1, star)
    else if s[k] == '{' then IsTame(t, s, k + 1, 0)
    else if s[k] == '\\' then ConstantAt(t, s, k)
    else true
  }

  /** Where the pattern ends that starts at k, cell separators aside. */
  function After(s: string, k: nat, pattern: string): (end: Option<nat>)
    ensures end.Some? ==> k <= end.value && (k <= |s| ==> end.value <= |s|)
    decreases |s| - k
  {
    if pattern == "" then Some(k)
    else if k >= |s| then None
    else if s[k] == pattern[0] then After(s, k + 1, pattern[1..])
    else if s[k] == '&' then After(s, k + 1, pattern)
    else None
  }

  const NOT := "\\not"
  const OPERATOR_NAME := "\\operatorname"

  /** After the pattern, if it starts at k, a plain argument follows. */
  predicate PlainAfter(t: Tables, s: string, k: nat, pattern: string, star: bool) {
    var end := After(s, k, pattern);
    end.Some? ==> IsPlainArgument(t, s, end.value, star)
  }

  predicate GuardedAt(t: Tables, s: string, k: nat, display: bool)
    requires k < |s|
  {
    && PlainAfter(t, s, k, NOT, false)
    && (display ==> PlainAfter(t, s, k, OPERATOR_NAME, true))
    && (display && (s[k] == '_' || s[k] == '^') ==> IsPlainArgument(t, s, k + 1, false))
  }

  /**
    Nothing that is struck through holds more than plain text; in display mode, nothing
    that may be placed at an operator does either.
  */
  predicate IsGuarded(t: Tables, s: string, display: bool) {
    forall k :: 0 <= k < |s| ==> GuardedAt(t, s, k, display)
  }

  lemma {:induction false} StarIsPlain(t: Tables, s: string, k: nat)
    requires IsPlainArgument(t, s, k, true)
    ensures IsPlainArgument(t, s, k, false)
    decreases |s| - k
  {
    if k < |s| && (IsSpace(s[k]) || s[k] == '&') {
      StarIsPlain(t, s, k + 1);
    }
  }

  lemma {:induction false} AfterHere(s: string, k: nat, pattern: string)
    requires OccursAt(s, pattern, k)
    ensures After(s, k, pattern) == Some(k + |pattern|)
    decreases |pattern|
  {
    if pattern != "" {
      assert s[k..k + |pattern|][0] == s[k];
      assert s[k + 1..k + 1 + |pattern[1..]|] == s[k..k + |pattern|][1..];
      AfterHere(s, k + 1, pattern[1..]);
    }
  }

  // ----- Tame text, step by step -----

  lemma {:induction false} TameAfterLetters(t: Tables, s: string, k: nat, end: nat, depth: nat)
    requires k <= end <= |s| && (forall j :: k <= j < end ==> IsAsciiLetter(s[j])) && IsTame(t, s, k, depth)
    ensures IsTame(t, s, end, depth)
    decreases end - k
  {
    if k < end {
      TameAfterLetters(t, s, k + 1, end, depth);
    }
  }

  /** The letters of a name are the longest run. */
  lemma {:induction false} LettersStop(s: string, k: nat, end: nat)
    requires k <= end <= |s| && (forall j :: k <= j < end ==> IsAsciiLetter(s[j]))
    requires end < |s| ==> !IsAsciiLetter(s[end])
    ensures LettersEnd(s, k) == end
    decreases end - k
  {
    if k < end {
      LettersStop(s, k + 1, end);
    }
  }

  // ----- Pieces of source -----

  /**
    From j on, u is s from i on with some cell separators taken out or replaced by spaces,
    and cut off at the end or at a character that is no letter.
  */
  predicate Thins(s: string, i: nat, u: string, j: nat)
    decreases |s| - i
  {
    || (j == |u| && (i >= |s| || !IsAsciiLetter(s[i])))
    || (i < |s| && s[i] == '&' && (Thins(s, i + 1, u, j) || (j < |u| && u[j] == ' ' && Thins(s, i + 1, u, j + 1))))
    || (i < |s| && j < |u| && s[i] == u[j] && Thins(s, i + 1, u, j + 1))
  }

  /** Text without separators is taken over as it is, as far as u goes. */
  lemma ThinsStep(s: string, i: nat, u: string, j: nat)
    requires Thins(s, i, u, j) && i < |s| && s[i] != '&' && j < |u|
    ensures s[i] == u[j] && Thins(s, i + 1, u, j + 1)
  {
  }

  lemma {:induction false} LettersThin(s: string, i: nat, u: string, j: nat)
    requires Thins(s, i, u, j) && i <= |s| && j <= |u|
    requires LettersEnd(s, i) < |s| ==> s[LettersEnd(s, i)] != '&'
    ensures var n := LettersEnd(s, i) - i;
            && LettersEnd(u, j) == j + n && s[i..i + n] == u[j..j + n] && Thins(s, i + n, u, j + n)
    decreases |s| - i
  {
    if i < |s| && IsAsciiLetter(s[i]) {
      assert j < |u|;
      ThinsStep(s, i, u, j);
      LettersThin(s, i + 1, u, j + 1);
      var n := LettersEnd(s, i + 1) - (i + 1);
      assert s[i..i + 1 + n] == [s[i]] + s[i + 1..i + 1 + n];
      assert u[j..j + 1 + n] == [u[j]] + u[j + 1..j + 1 + n];
    } else if j < |u| && i < |s| {
      ThinsStep(s, i, u, j);
    }
  }

  lemma ConstantThin(t: Tables, s: string, i: nat, u: string, j: nat)
    requires Thins(s, i, u, j) && i < |s| && s[i] == '\\' && j < |u| && ConstantAt(t, s, i)
    ensures u[j] == '\\' && ConstantAt(t, u, j) && Thins(s, i + 1, u, j + 1)
  {
    ThinsStep(s, i, u, j);
    if j + 1 < |u| {
      assert i + 1 < |s|;
      if IsAsciiLetter(s[i + 1]) {
        LettersThin(s, i + 1, u, j + 1);
        var end, end' := LettersEnd(s, i + 1), LettersEnd(u, j + 1);
        assert s[i + 1] == u[j + 1];
        if end' < |u| {
          assert end < |s|;
          ThinsStep(s, end, u, end');
        }
      } else {
        ThinsStep(s, i + 1, u, j + 1);
        assert s[i + 1..i + 2] == [s[i + 1]] && u[j + 1..j + 2] == [u[j + 1]];
        if j + 2 < |u| {
          assert i + 2 < |s|;
          ThinsStep(s, i + 2, u, j + 2);
        }
      }
    }
  }

  lemma {:induction false} TameThin(t: Tables, s: string, i: nat, u: string, j: nat, depth: nat)
    requires Thins(s, i, u, j) && IsTame(t, s, i, depth)
    ensures IsTame(t, u, j, depth)
    decreases |s| - i
  {
    if j < |u| {
      assert i < |s|;
      if s[i] == '&' {
        if Thins(s, i + 1, u, j) {
          TameThin(t, s, i + 1, u, j, depth);
        } else {
          TameThin(t, s, i + 1, u, j + 1, depth);
        }
      } else if s[i] == '\\' {
        ConstantThin(t, s, i, u, j);
        if j + 2 <= |u| {
          ThinsStep(s, i + 1, u, j + 1);
          TameThin(t, s, i + 2, u, j + 2, depth);
        }
      } else {
        ThinsStep(s, i, u, j);
        if s[i] == '_' || s[i] == '^' {
          if j + 1 < |u| {
            ThinsStep(s, i + 1, u, j + 1);
          }
        }
        if s[i] == '{' {
          TameThin(t, s, i + 1, u, j + 1, depth + 1);
        } else if s[i] != '}' {
          TameThin(t, s, i + 1, u, j + 1, depth);
        } else if depth > 0 {
          TameThin(t, s, i + 1, u, j + 1, depth - 1);
        }
      }
    }
  }

  lemma {:induction false} PlainThin(t: Tables, s: string, i: nat, u: string, j: nat, star: bool)
    requires Thins(s, i, u, j) && IsPlainArgument(t, s, i, star)
    ensures IsPlainArgument(t, u, j, star)
    decreases |s| - i
  {
    if j < |u| {
      assert i < |s|;
      if s[i] == '&' {
        if Thins(s, i + 1, u, j) {
          PlainThin(t, s, i + 1, u, j, star);
        } else {
          PlainThin(t, s, i + 1, u, j + 1, star);
        }
      } else {
        ThinsStep(s, i, u, j);
        if IsSpace(s[i]) || (star && s[i] == '*') {
          PlainThin(t, s, i + 1, u, j + 1, star);
        } else if s[i] == '{' {
          TameThin(t, s, i + 1, u, j + 1, 0);
        } else if s[i] == '\\' {
          ConstantThin(t, s, i, u, j);
        }
      }
    }
  }

  lemma {:induction false} AfterThin(s: string, i: nat, u: string, j: nat, pattern: string)
    requires Thins(s, i, u, j) && After(u, j, pattern).Some? && ' ' !in pattern && '&' !in pattern
    ensures After(s, i, pattern).Some?
    ensures Thins(s, After(s, i, pattern).value, u, After(u, j, pattern).value)
    decreases |s| - i
  {
    if pattern != "" {
      assert i < |s|;
      if s[i] == '&' {
        if Thins(s, i + 1, u, j) {
          AfterThin(s, i + 1, u, j, pattern);
        } else {
          AfterThin(s, i + 1, u, j + 1, pattern);
        }
      } else {
        ThinsStep(s, i, u, j);
        AfterThin(s, i + 1, u, j + 1, pattern[1..]);
      }
    }
  }

  lemma PlainAfterThin(t: Tables, s: string, i: nat, u: string, j: nat, pattern: string, star: bool)
    requires Thins(s, i, u, j) && PlainAfter(t, s, i, pattern, star) && ' ' !in pattern && '&' !in pattern
    ensures PlainAfter(t, u, j, pattern, star)
  {
    if After(u, j, pattern).Some? {
      AfterThin(s, i, u, j, pattern);
      PlainThin(t, s, After(s, i, pattern).value, u, After(u, j, pattern).value, star);
    }
  }

  /** What is guarded stays guarded when it is thinned. */
  lemma {:induction false} GuardedThin(t: Tables, s: string, i: nat, u: string, j: nat, display: bool, k: nat)
    requires Thins(s, i, u, j) && IsGuarded(t, s, display) && j <= k < |u|
    ensures GuardedAt(t, u, k, display)
    decreases |s| - i
  {
    assert i < |s| && GuardedAt(t, s, i, display);
    if s[i] == '&' && Thins(s, i + 1, u, j) {
      GuardedThin(t, s, i + 1, u, j, display, k);
    } else {
      assert Thins(s, i + 1, u, j + 1);
      if k > j {
        GuardedThin(t, s, i + 1, u, j + 1, display, k);
      } else {
        PlainAfterThin(t, s, i, u, j, NOT, false);
        if display {
          PlainAfterThin(t, s, i, u, j, OPERATOR_NAME, true);
          if u[j] == '_' || u[j] == '^' {
            PlainThin(t, s, i + 1, u, j + 1, false);
          }
        }
      }
    }
  }

  lemma ThinnedIsGuarded(t: Tables, s: string, i: nat, u: string, display: bool)
    requires Thins(s, i, u, 0) && IsGuarded(t, s, display)
    ensures IsGuarded(t, u, display)
  {
    forall k | 0 <= k < |u| ensures GuardedAt(t, u, k, display) {
      GuardedThin(t, s, i, u, 0, display, k);
    }
  }

  lemma {:induction false} SliceThins(s: string, a: nat, b: nat, i: nat)
    requires a <= i <= b <= |s| && (b < |s| ==> !IsAsciiLetter(s[b]))
    ensures Thins(s, i, s[a..b], i - a)
    decreases b - i
  {
    if i < b {
      SliceThins(s, a, b, i + 1);
    }
  }

  /** A piece of guarded source that is not cut off inside a name is guarded. */
  lemma SliceIsGuarded(t: Tables, s: string, a: nat, b: nat, display: bool)
    requires a <= b <= |s| && (b < |s| ==> !IsAsciiLetter(s[b])) && IsGuarded(t, s, display)
    ensures IsGuarded(t, s[a..b], display)
  {
    SliceThins(s, a, b, a);
    ThinnedIsGuarded(t, s, a, s[a..b], display);
  }

  lemma SuffixIsGuarded(t: Tables, s: string, a: nat, display: bool)
    requires a <= |s| && IsGuarded(t, s, display)
    ensures IsGuarded(t, s[a..], display)
  {
    SliceIsGuarded(t, s, a, |s|, display);
    assert s[a..|s|] == s[a..];
  }

  // ----- Rows of aligned environments -----

  lemma {:induction false} ThinsShift(s: string, i: nat, u: string, j: nat, a: string, b: string)
    ensures Thins(a + s, |a| + i, b + u, |b| + j) == Thins(s, i, u, j)
    decreases |s| - i
  {
    if i < |s| {
      assert (a + s)[|a| + i] == s[i] && (j < |u| ==> (b + u)[|b| + j] == u[j]);
      ThinsShift(s, i + 1, u, j, a, b);
      ThinsShift(s, i + 1, u, j + 1, a, b);
    }
  }

  /** One more character at the front, taken over, taken out or replaced. */
  lemma ThinsCons(s: string, u: string, front: string)
    requires s != "" && Thins(s[1..], 0, u, 0)
    requires front == [s[0]] || (s[0] == '&' && (front == "" || front == " "))
    ensures Thins(s, 0, front + u, 0)
  {
    assert [s[0]] + s[1..] == s;
    ThinsShift(s[1..], 0, u, 0, [s[0]], front);
  }

  /** The first row is cut off, the others are rows of what follows. */
  lemma {:induction false} RowsAreGuarded(t: Tables, body: string, display: bool)
    requires IsGuarded(t, body, display)
    ensures Thins(body, 0, SplitRows(body)[0], 0)
    ensures forall r :: 0 <= r < |SplitRows(body)| ==> IsGuarded(t, SplitRows(body)[r], display)
    decreases |body|
  {
    if body != "" {
      if IsRowBreak(body) {
        var end := if |body| > 2 && body[2] == '[' then RowArgument(body, 3) else -1;
        var next := if end >= 0 then end + 1 else 2;
        SuffixIsGuarded(t, body, next, display);
        RowsAreGuarded(t, body[next..], display);
      } else {
        SuffixIsGuarded(t, body, 1, display);
        RowsAreGuarded(t, body[1..], display);
        var rest := SplitRows(body[1..]);
        ThinsCons(body, rest[0], [body[0]]);
        ThinnedIsGuarded(t, body, 0, [body[0]] + rest[0], display);
      }
    }
  }

  lemma JoinCons(c: char, parts: seq<string>, separator: string)
    requires parts != []
    ensures JoinWith([[c] + parts[0]] + parts[1..], separator) == [c] + JoinWith(parts, separator)
  {
    var longer := [[c] + parts[0]] + parts[1..];
    assert longer[1..] == parts[1..];
    if |parts| > 1 {
      Associative([c], parts[0], separator);
      Associative([c], parts[0] + separator, JoinWith(parts[1..], separator));
    }
  }

  lemma {:induction false} JoinedCellsThin(row: string)
    ensures Thins(row, 0, JoinWith(SplitOn(row, '&'), ""), 0)
  {
    if row != "" {
      JoinedCellsThin(row[1..]);
      var rest := SplitOn(row[1..], '&');
      if row[0] == '&' {
        assert ([""] + rest)[1..] == rest;
        assert "" + "" + JoinWith(rest, "") == "" + JoinWith(rest, "");
        ThinsCons(row, JoinWith(rest, ""), "");
      } else {
        JoinCons(row[0], rest, "");
        ThinsCons(row, JoinWith(rest, ""), [row[0]]);
      }
    }
  }

  /** The cells from the first of a pair on, or from the second on, as they are joined. */
  function JoinedPairs(cells: seq<string>, second: bool): string {
    if cells == [] then ""
    else if |cells| == 1 then cells[0]
    else cells[0] + (if second then " " else "") + JoinedPairs(cells[1..], !second)
  }

  lemma {:induction false} PairsJoined(cells: seq<string>)
    ensures JoinWith(PairCells(cells), " ") == JoinedPairs(cells, false)
    decreases |cells|
  {
    if |cells| == 2 {
      assert cells[2..] == [] && cells[1..] == [cells[1]];
      assert cells[0] + "" + cells[1] == cells[0] + cells[1];
    } else if |cells| > 2 {
      PairsJoined(cells[2..]);
      var pairs := PairCells(cells);
      assert pairs[1..] == PairCells(cells[2..]) && cells[1..][1..] == cells[2..] && |pairs| > 1;
      assert cells[0] + "" == cells[0];
      Associative(cells[0], cells[1], " ");
      Associative(cells[0], cells[1] + " ", JoinedPairs(cells[2..], false));
    }
  }

  lemma {:induction false} PairedCellsThin(row: string, second: bool)
    ensures Thins(row, 0, JoinedPairs(SplitOn(row, '&'), second), 0)
  {
    if row != "" {
      var rest := SplitOn(row[1..], '&');
      if row[0] == '&' {
        PairedCellsThin(row[1..], !second);
        assert ([""] + rest)[1..] == rest;
        var between := if second then " " else "";
        assert "" + between == between;
        ThinsCons(row, JoinedPairs(rest, !second), between);
      } else {
        PairedCellsThin(row[1..], second);
        PairsCons(row[0], rest, second);
        ThinsCons(row, JoinedPairs(rest, second), [row[0]]);
      }
    }
  }

  lemma PairsCons(c: char, cells: seq<string>, second: bool)
    requires cells != []
    ensures JoinedPairs([[c] + cells[0]] + cells[1..], second) == [c] + JoinedPairs(cells, second)
  {
    var longer := [[c] + cells[0]] + cells[1..];
    assert longer[1..] == cells[1..];
    if |cells| > 1 {
      var between := if second then " " else "";
      Associative([c], cells[0], between);
      Associative([c], cells[0] + between, JoinedPairs(cells[1..], !second));
    }
  }

  lemma RowSourceIsGuarded(t: Tables, row: string, alignedAt: bool, display: bool)
    requires IsGuarded(t, row, display)
    ensures IsGuarded(t, RowSource(row, alignedAt), display)
  {
    if alignedAt {
      PairsJoined(SplitOn(row, '&'));
      PairedCellsThin(row, false);
    } else {
      JoinedCellsThin(row);
    }
    ThinnedIsGuarded(t, row, 0, RowSource(row, alignedAt), display);
  }

  // ----- Cells -----

  ghost predicate NoRowBreak(s: string) {
    forall k :: 0 < k < |s| ==> !(s[k - 1] == '\\' && s[k] == '\\')
  }

  /** The source of a cell: neither rows nor cells can be split off it. */
  ghost predicate IsCell(s: string) { NoRowBreak(s) && '&' !in s }

  lemma NoBreakCons(c: char, s: string)
    requires NoRowBreak(s) && (s != "" ==> !(c == '\\' && s[0] == '\\'))
    ensures NoRowBreak([c] + s)
  {
    var longer := [c] + s;
    forall k | 0 < k < |longer| ensures !(longer[k - 1] == '\\' && longer[k] == '\\') {
      assert longer[k] == s[k - 1] && (k > 1 ==> longer[k - 1] == s[k - 2]);
    }
  }

  ghost predicate NoRowBreaks(rows: seq<string>) {
    forall r :: 0 <= r < |rows| ==> NoRowBreak(rows[r])
  }

  lemma NoBreaksCons(c: char, rest: seq<string>)
    requires NoRowBreaks(rest) && rest != [] && (rest[0] != "" ==> !(c == '\\' && rest[0][0] == '\\'))
    ensures NoRowBreaks([[c] + rest[0]] + rest[1..])
  {
    NoBreakCons(c, rest[0]);
  }

  /** Rows hold no row break. */
  lemma {:induction false} RowsHaveNoBreak(body: string)
    ensures NoRowBreaks(SplitRows(body))
    ensures SplitRows(body)[0] != "" ==> body != "" && SplitRows(body)[0][0] == body[0]
    decreases |body|
  {
    if body != "" {
      if IsRowBreak(body) {
        var end := if |body| > 2 && body[2] == '[' then RowArgument(body, 3) else -1;
        var rest := if end >= 0 then body[end + 1..] else body[2..];
        RowsHaveNoBreak(rest);
        NoBreaksAfter(SplitRows(rest));
      } else {
        RowsHaveNoBreak(body[1..]);
        NoBreaksCons(body[0], SplitRows(body[1..]));
      }
    }
  }

  lemma NoBreaksAfter(rest: seq<string>)
    requires NoRowBreaks(rest)
    ensures NoRowBreaks([[]] + rest)
  {
  }

  lemma {:induction false} OneRow(body: string)
    requires NoRowBreak(body)
    ensures SplitRows(body) == [body]
    decreases |body|
  {
    if body != "" {
      assert !IsRowBreak(body) by {
        assert |body| > 1 ==> !(body[1 - 1] == '\\' && body[1] == '\\');
      }
      assert NoRowBreak(body[1..]) by {
        forall k | 0 < k < |body[1..]| ensures !(body[1..][k - 1] == '\\' && body[1..][k] == '\\') {
          assert !(body[k + 1 - 1] == '\\' && body[k + 1] == '\\');
        }
      }
      OneRow(body[1..]);
      assert [body[0]] + body[1..] == body;
    }
  }

  lemma {:induction false} CellsAreCells(row: string)
    requires NoRowBreak(row)
    ensures forall c :: 0 <= c < |SplitOn(row, '&')| ==> IsCell(SplitOn(row, '&')[c])
    ensures SplitOn(row, '&')[0] != "" ==> row != "" && SplitOn(row, '&')[0][0] == row[0]
  {
    if row != "" {
      assert NoRowBreak(row[1..]) by {
        forall k | 0 < k < |row[1..]| ensures !(row[1..][k - 1] == '\\' && row[1..][k] == '\\') {
          assert !(row[k + 1 - 1] == '\\' && row[k + 1] == '\\');
        }
      }
      CellsAreCells(row[1..]);
      assert |row| > 1 ==> !(row[1 - 1] == '\\' && row[1] == '\\');
      if row[0] != '&' {
        NoBreakCons(row[0], SplitOn(row[1..], '&')[0]);
      }
    }
  }

  lemma CellIsItsRow(cell: string, alignedAt: bool)
    requires IsCell(cell)
    ensures SplitRows(cell) == [cell] && RowSource(cell, alignedAt) == cell
  {
    OneRow(cell);
    SplitWhole(cell, '&');
    assert PairCells([cell]) == [cell];
  }

  // ----- What is promised of a piece of source -----

  /**
    What a parser is told of its source: nothing, that no marker starts in it, that no
    character of a marker is in it, that it is guarded besides, or that it is the source
    of a cell.
  */
  datatype Mode = Any | Clean | Pure | Guarded | Bare

  predicate IsPure(mode: Mode) { mode.Pure? || mode.Guarded? || mode.Bare? }

  ghost predicate Suits(mode: Mode, t: Tables, source: string, display: bool) {
    && (mode != Any ==> Free(source, Bound(0, IsPure(mode))))
    && (mode == Guarded ==> IsGuarded(t, source, display))
    && (mode == Bare ==> !display && IsCell(source))
  }

  lemma SliceSuits(mode: Mode, t: Tables, source: string, a: nat, b: nat, display: bool)
    requires a <= b <= |source| && (b < |source| ==> !IsAsciiLetter(source[b])) && Suits(mode, t, source, display)
    ensures Suits(mode, t, source[a..b], display)
  {
    if mode == Guarded {
      SliceIsGuarded(t, source, a, b, display);
    }
  }

  lemma StripSuits(mode: Mode, t: Tables, body: string, display: bool)
    requires Suits(mode, t, body, display)
    ensures Suits(mode, t, StripGroup(body), display) && |StripGroup(body)| <= |body|
  {
    var a := |body| - |StripGroup(body)|;
    assert StripGroup(body) == body[a..|body|];
    SliceSuits(mode, t, body, a, |body|, display);
  }

  lemma RowSuits(mode: Mode, t: Tables, body: string, r: nat, alignedAt: bool, display: bool)
    requires r < |SplitRows(body)| && Suits(mode, t, body, display)
    ensures Suits(mode, t, RowSource(SplitRows(body)[r], alignedAt), display)
    ensures |RowSource(SplitRows(body)[r], alignedAt)| <= |body|
  {
    var row, limit := SplitRows(body)[r], Bound(0, IsPure(mode));
    RowsAreShorter(body);
    RowSourceIsShorter(row, alignedAt, limit);
    if mode != Any {
      RowsAreFree(body, limit);
    }
    if mode == Guarded {
      RowsAreGuarded(t, body, display);
      RowSourceIsGuarded(t, row, alignedAt, display);
    } else if mode == Bare {
      CellIsItsRow(body, alignedAt);
    }
  }

  /** Of the cells of clean source more is known than of the source: that they are cells. */
  function CellMode(mode: Mode): Mode { if IsPure(mode) then Bare else mode }

  lemma CellSuits(mode: Mode, t: Tables, body: string, r: nat, c: nat)
    requires r < |SplitRows(body)| && c < |SplitOn(SplitRows(body)[r], '&')|
    requires mode != Any ==> Free(body, Bound(0, IsPure(mode)))
    ensures Suits(CellMode(mode), t, SplitOn(SplitRows(body)[r], '&')[c], false)
    ensures |SplitOn(SplitRows(body)[r], '&')[c]| <= |body|
  {
    var row, limit := SplitRows(body)[r], Bound(0, IsPure(mode));
    RowsAreShorter(body);
    CellsAreShorter(row, limit);
    if mode != Any {
      RowsAreFree(body, limit);
    }
    RowsHaveNoBreak(body);
    CellsAreCells(row);
  }
}
