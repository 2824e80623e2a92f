/** Cutting decoded text, as it arrives in chunks, into complete lines. */
module ProxyLines {
  import opened Sequences

  function Last<T>(s: seq<T>): T
    requires |s| > 0
  {
    s[|s| - 1]
  }

  function Lead<T>(s: seq<T>): seq<T>
    requires |s| > 0
  {
    s[..|s| - 1]
  }

  /** The lines that a line feed ends; the text after the last line feed is not one. */
  function CompleteLines(text: string): seq<string> { Lead(SplitOn(text, '\n')) }

  function Tail(text: string): string { Last(SplitOn(text, '\n')) }

  /** The lines of a text with one more character in front. */
  function Put(c: char, lines: seq<string>): seq<string>
    requires |lines| > 0
  {
    if c == '\n' then [[]] + lines else [[c] + lines[0]] + lines[1..]
  }

  lemma LeadCons(line: string, lines: seq<string>, more: seq<string>)
    requires |lines| > 0
    ensures Lead([line] + lines) == [line] + Lead(lines) && Last([line] + lines) == Last(lines)
    ensures ([line] + Lead(lines)) + more == [line] + (Lead(lines) + more)
  {
  }

  lemma PutBeforeMany(c: char, lines: seq<string>, more: seq<string>)
    requires |lines| > 0 && |more| > 0 && (c == '\n' || |lines| > 1)
    ensures Lead(Put(c, lines)) + more == Put(c, Lead(lines) + more)
    ensures Last(Put(c, lines)) == Last(lines)
  {
    if c == '\n' {
      LeadCons([], lines, more);
    } else {
      var rest := lines[1..];
      LeadCons([c] + lines[0], rest, more);
      assert Lead(lines) == [lines[0]] + Lead(rest);
      assert Lead(lines) + more == [lines[0]] + (Lead(rest) + more);
      assert (Lead(lines) + more)[1..] == Lead(rest) + more;
    }
  }

  lemma PutBeforeOne(c: char, line: string, b: string)
    requires c != '\n'
    ensures Lead(Put(c, [line])) == [] && Last(Put(c, [line])) == [c] + line
    ensures SplitOn([c] + line + b, '\n') == Put(c, SplitOn(line + b, '\n'))
  {
    assert ([c] + line + b)[1..] == line + b;
  }

  /** Splitting a concatenation: the last field of the first part goes on in the second. */
  lemma {:induction false} SplitConcat(a: string, b: string)
    ensures SplitOn(a + b, '\n') == Lead(SplitOn(a, '\n')) + SplitOn(Last(SplitOn(a, '\n')) + b, '\n')
    decreases |a|
  {
    if a == "" {
      assert a + b == b && Lead(SplitOn(a, '\n')) == [] && "" + b == b;
    } else {
      var lines := SplitOn(a[1..], '\n');
      var more := SplitOn(Last(lines) + b, '\n');
      assert (a + b)[1..] == a[1..] + b;
      SplitConcat(a[1..], b);
      assert SplitOn(a + b, '\n') == Put(a[0], Lead(lines) + more);
      assert SplitOn(a, '\n') == Put(a[0], lines);
      if a[0] == '\n' || |lines| > 1 {
        PutBeforeMany(a[0], lines, more);
      } else {
        PutBeforeOne(a[0], lines[0], b);
        assert lines == [lines[0]] && Lead(lines) == [] && [] + more == more;
        assert [] + SplitOn(Last(SplitOn(a, '\n')) + b, '\n') == SplitOn(Last(SplitOn(a, '\n')) + b, '\n');
      }
    }
  }

  /** What is processed for two texts in a row: the tail of the first is kept for the second. */
  lemma LinesOfTwo(a: string, b: string)
    ensures CompleteLines(a + b) == CompleteLines(a) + CompleteLines(Tail(a) + b)
    ensures Tail(a + b) == Tail(Tail(a) + b)
  {
    SplitConcat(a, b);
    var rest := SplitOn(Tail(a) + b, '\n');
    assert Lead(Lead(SplitOn(a, '\n')) + rest) == Lead(SplitOn(a, '\n')) + Lead(rest);
  }

  /** Line feeds occur between the lines only. */
  lemma {:induction false} NoLineFeedInLines(text: string)
    ensures forall k :: 0 <= k < |SplitOn(text, '\n')| ==> '\n' !in SplitOn(text, '\n')[k]
    ensures JoinWith(SplitOn(text, '\n'), "\n") == text
  {
    if text != "" {
      NoLineFeedInLines(text[1..]);
      var rest := SplitOn(text[1..], '\n');
      if text[0] == '\n' {
        JoinAfterLineFeed(rest);
      } else {
        JoinPut(text[0], rest);
      }
      assert [text[0]] + text[1..] == text;
    }
  }

  lemma JoinCons(line: string, more: seq<string>)
    requires |more| > 0
    ensures JoinWith([line] + more, "\n") == line + "\n" + JoinWith(more, "\n")
  {
    assert ([line] + more)[1..] == more;
  }

  lemma JoinAfterLineFeed(rest: seq<string>)
    requires |rest| > 0
    ensures JoinWith([[]] + rest, "\n") == "\n" + JoinWith(rest, "\n")
  {
    JoinCons([], rest);
  }

  lemma Shift(c: char, line: string, more: string)
    ensures ([c] + line) + "\n" + more == [c] + (line + "\n" + more)
  {
  }

  lemma JoinPut(c: char, rest: seq<string>)
    requires |rest| > 0
    ensures JoinWith([[c] + rest[0]] + rest[1..], "\n") == [c] + JoinWith(rest, "\n")
  {
    var line, more := rest[0], rest[1..];
    if more == [] {
      assert rest == [line] && [[c] + line] + more == [[c] + line];
    } else {
      JoinCons([c] + line, more);
      Shift(c, line, JoinWith(more, "\n"));
    }
  }

  /** A last line that no line feed ends is not among the complete lines, however long it is. */
  lemma UnfinishedLineIsKept(text: string, line: string)
    requires Tail(text) == "" && '\n' !in line
    ensures CompleteLines(text + line) == CompleteLines(text) && Tail(text + line) == line
  {
    LinesOfTwo(text, line);
    SplitWhole(line, '\n');
    assert Tail(text) + line == line;
    assert CompleteLines(text) + [] == CompleteLines(text);
  }

  /** For instance, nothing is processed of a stream that consists of one event without a line feed. */
  lemma LastEventIsLost()
    ensures CompleteLines("data: {}") == [] && CompleteLines("data: {}\n") == ["data: {}"]
  {
    SplitWhole("data: {}", '\n');
    SplitAfter("data: {}", '\n', "");
    assert "data: {}" + ['\n'] + "" == "data: {}\n";
  }
}
