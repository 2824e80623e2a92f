/** Searching, splitting and joining, for strings and for sequences of code units alike. */
module Sequences {
  predicate OccursAt<T(==)>(s: seq<T>, pattern: seq<T>, k: int) {
    0 <= k <= |s| - |pattern| && s[k..k + |pattern|] == pattern
  }

  ghost predicate Occurs<T>(s: seq<T>, pattern: seq<T>) {
    exists k :: OccursAt(s, pattern, k)
  }

  /** The first occurrence at k or later, or -1. */
  function IndexFrom<T(==)>(s: seq<T>, pattern: seq<T>, k: nat): (index: int)
    ensures -1 <= index && (index >= 0 ==> k <= index <= |s| - |pattern|)
    decreases |s| - k
  {
    if k + |pattern| > |s| then -1
    else if OccursAt(s, pattern, k) then k
    else if k == |s| then -1
    else IndexFrom(s, pattern, k + 1)
  }

  lemma {:induction false} IndexFromIsFirst<T>(s: seq<T>, pattern: seq<T>, k: nat)
    ensures var index := IndexFrom(s, pattern, k);
            && (index >= 0 ==> OccursAt(s, pattern, index))
            && forall j :: k <= j && (index < 0 || j < index) ==> !OccursAt(s, pattern, j)
    decreases |s| - k
  {
    if k + |pattern| <= |s| && !OccursAt(s, pattern, k) && k < |s| {
      IndexFromIsFirst(s, pattern, k + 1);
    }
  }

  function IndexOf<T(==)>(s: seq<T>, pattern: seq<T>): (index: int)
    ensures -1 <= index && (index >= 0 ==> OccursAt(s, pattern, index))
    ensures forall j :: 0 <= j && (index < 0 || j < index) ==> !OccursAt(s, pattern, j)
  {
    IndexFromIsFirst(s, pattern, 0);
    IndexFrom(s, pattern, 0)
  }

  /** The fields between separators; an empty sequence has one empty field. */
  function SplitOn<T(==)>(s: seq<T>, separator: T): (parts: seq<seq<T>>)
    ensures |parts| > 0
  {
    if s == [] then [[]]
    else
      var rest := SplitOn(s[1..], separator);
      if s[0] == separator then [[]] + rest else [[s[0]] + rest[0]] + rest[1..]
  }

  lemma {:induction false} SplitLength<T>(s: seq<T>, separator: T)
    ensures |SplitOn(s, separator)| <= |s| + 1
  {
    if s != [] {
      SplitLength(s[1..], separator);
    }
  }

  function JoinWith<T>(parts: seq<seq<T>>, separator: seq<T>): seq<T> {
    if |parts| == 0 then []
    else if |parts| == 1 then parts[0]
    else parts[0] + separator + JoinWith(parts[1..], separator)
  }

  function Flatten<T>(parts: seq<seq<T>>): seq<T> {
    if |parts| == 0 then [] else parts[0] + Flatten(parts[1..])
  }

  lemma {:induction false} FlattenSnoc<T>(parts: seq<seq<T>>, last: seq<T>)
    ensures Flatten(parts + [last]) == Flatten(parts) + last
  {
    if |parts| == 0 {
      assert parts + [last] == [last] && last + [] == last && [] + last == last;
      assert [last][1..] == [];
    } else {
      assert (parts + [last])[1..] == parts[1..] + [last];
      FlattenSnoc(parts[1..], last);
      Associative(parts[0], Flatten(parts[1..]), last);
    }
  }

  lemma Associative<T>(a: seq<T>, b: seq<T>, c: seq<T>)
    ensures (a + b) + c == a + (b + c)
  {
  }

  lemma {:induction false} SplitWhole<T>(s: seq<T>, separator: T)
    requires separator !in s
    ensures SplitOn(s, separator) == [s]
  {
    if s != [] {
      SplitWhole(s[1..], separator);
      assert [s[0]] + s[1..] == s;
    }
  }

  lemma {:induction false} SplitAfter<T>(part: seq<T>, separator: T, rest: seq<T>)
    requires separator !in part
    ensures SplitOn(part + [separator] + rest, separator) == [part] + SplitOn(rest, separator)
  {
    var s := part + [separator] + rest;
    if part == [] {
      assert s[1..] == rest;
    } else {
      SplitAfter(part[1..], separator, rest);
      assert s[1..] == part[1..] + [separator] + rest;
      assert [part[0]] + part[1..] == part;
    }
  }

  /** Splitting undoes joining when no part holds the separator. */
  lemma {:induction false} SplitJoined<T>(parts: seq<seq<T>>, separator: T)
    requires |parts| > 0 && forall k :: 0 <= k < |parts| ==> separator !in parts[k]
    ensures SplitOn(JoinWith(parts, [separator]), separator) == parts
  {
    if |parts| == 1 {
      SplitWhole(parts[0], separator);
    } else {
      SplitJoined(parts[1..], separator);
      SplitAfter(parts[0], separator, JoinWith(parts[1..], [separator]));
    }
  }
}
