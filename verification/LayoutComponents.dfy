/**
  Where components go: the layout as a function from a component and the space it is given
  to a tree of boxes.
*/
module LayoutComponents {
  import opened Arithmetic
  import opened LayoutTrees
  import opened Wrappers

  datatype Align = Stretch | Start | Center | End

  /**
    A component as far as its layout goes. How many lines a leaf renders, and how a stack
    shares out its space, are arbitrary functions.
  */
  datatype Component =
    | Leaf(lineCount: nat -> nat)
    | Scroll(view: nat, scrollTop: nat, following: bool, contentWidth: nat -> nat, content: Component)
    | VStack(gap: nat, entries: seq<Component>, heights: (nat, Option<int>) -> (nat -> nat))
    | HStack(gap: nat, align: Align, entries: seq<Component>, widths: nat -> (nat -> nat),
             naturalHeights: nat -> (nat -> nat))

  function SafeWidth(width: int): nat { Max(1, width) }

  function Allocated(height: Option<int>, natural: nat): nat {
    if height.None? then natural else Max(0, height.value)
  }

  /** The scroll offset after the view learned the heights of its content and of itself. */
  function UpdatedScrollTop(c: Component, contentHeight: nat, viewportHeight: nat): nat
    requires c.Scroll?
  {
    var maxScrollTop := Max(0, contentHeight - viewportHeight);
    if c.following then maxScrollTop else Min(c.scrollTop, maxScrollTop)
  }

  function Sum(sizes: nat -> nat, n: nat): nat {
    if n == 0 then 0 else Sum(sizes, n - 1) + sizes(n - 1)
  }

  function Largest(sizes: nat -> nat, n: nat): nat {
    if n == 0 then 0 else Max(Largest(sizes, n - 1), sizes(n - 1))
  }

  function GapTotal(c: Component): nat
    requires c.VStack? || c.HStack?
  {
    if |c.entries| == 0 then 0 else (|c.entries| - 1) * c.gap
  }

  function StackHeight(c: Component, width: nat, height: Option<int>): nat
    requires c.VStack?
  {
    Allocated(height, Sum(c.heights(width, height), |c.entries|) + GapTotal(c))
  }

  function RowHeight(c: Component, width: nat, height: Option<int>): nat
    requires c.HStack?
  {
    Allocated(height, Largest(c.naturalHeights(width), |c.entries|))
  }

  function EntryHeight(c: Component, width: nat, room: nat, i: nat): nat
    requires c.HStack?
  {
    if c.align == Stretch then room else Min(room, c.naturalHeights(width)(i))
  }

  function EntryY(c: Component, y: int, room: nat, height: nat): int
    requires c.HStack?
  {
    match c.align
    case Center => y + (room - height) / 2
    case End => y + (room - height)
    case _ => y
  }

  /** A zero-width entry of a row gets a box without any cells. */
  function EmptyBox(x: int, y: int, height: nat): Tree {
    Tree(Rect(x, y, 0, height), Rect(x, y, 0, 0), None, [])
  }

  /** How far up the content, laid out at the old offset, is moved. */
  function Shift(c: Component, child: Tree, height: Option<int>): int
    requires c.Scroll?
  {
    c.scrollTop - UpdatedScrollTop(c, child.rect.height, Allocated(height, child.rect.height))
  }

  /** A scroll view around its laid-out content: the content is moved, then clipped again. */
  function ScrollBox(c: Component, child: Tree, x: int, y: int, width: nat, height: Option<int>, clip: Rect): Tree
    requires c.Scroll?
  {
    var rect := Rect(x, y, width, Allocated(height, child.rect.height));
    Tree(rect, Intersect(clip, rect), Some(c.view),
         [UpdateClips(Translate(child, Shift(c, child, height)), Intersect(clip, rect))])
  }

  function Box(rect: Rect, clip: Rect, children: seq<Tree>): Tree {
    Tree(rect, Intersect(clip, rect), None, children)
  }

  function LaidOut(c: Component, x: int, y: int, width: int, height: Option<int>, clip: Rect): Tree
    decreases c, 3
  {
    match c
    case Leaf(lineCount) => Box(Rect(x, y, SafeWidth(width), Allocated(height, lineCount(SafeWidth(width)))), clip, [])
    case Scroll(_, _, _, _, _) => LaidOutScroll(c, x, y, SafeWidth(width), height, clip)
    case VStack(_, _, _) => LaidOutStack(c, x, y, SafeWidth(width), height, clip)
    case HStack(_, _, _, _, _) => LaidOutRow(c, x, y, SafeWidth(width), height, clip)
  }

  function LaidOutScroll(c: Component, x: int, y: int, width: nat, height: Option<int>, clip: Rect): Tree
    requires c.Scroll?
    decreases c, 2
  {
    var child := LaidOut(c.content, x, y - c.scrollTop, c.contentWidth(width), None, clip);
    ScrollBox(c, child, x, y, width, height, clip)
  }

  function LaidOutStack(c: Component, x: int, y: int, width: nat, height: Option<int>, clip: Rect): Tree
    requires c.VStack?
    decreases c, 2
  {
    var rect := Rect(x, y, width, StackHeight(c, width, height));
    Box(rect, clip, Stacked(c, 0, x, y, width, height, Intersect(clip, rect)))
  }

  function LaidOutRow(c: Component, x: int, y: int, width: nat, height: Option<int>, clip: Rect): Tree
    requires c.HStack?
    decreases c, 2
  {
    var rect := Rect(x, y, width, RowHeight(c, width, height));
    Box(rect, clip, InRow(c, 0, x, y, width, rect.height, Intersect(clip, rect)))
  }

  /** The entries of a vertical stack from the i-th on, the first of them at y. */
  function Stacked(c: Component, i: nat, x: int, y: int, width: nat, height: Option<int>, clip: Rect): seq<Tree>
    requires c.VStack? && i <= |c.entries|
    decreases c, 0, |c.entries| - i
  {
    if i == |c.entries| then []
    else
      var size := c.heights(width, height)(i);
      [LaidOut(c.entries[i], x, y, width, Some(size), clip)]
      + Stacked(c, i + 1, x, y + size + c.gap, width, height, clip)
  }

  /** The entries of a row from the i-th on, the first of them at x. */
  function InRow(c: Component, i: nat, x: int, y: int, width: nat, room: nat, clip: Rect): seq<Tree>
    requires c.HStack? && i <= |c.entries|
    decreases c, 0, |c.entries| - i
  {
    if i == |c.entries| then []
    else
      [Entry(c, i, x, y, width, room, clip)]
      + InRow(c, i + 1, x + c.widths(width)(i) + c.gap, y, width, room, clip)
  }

  function Entry(c: Component, i: nat, x: int, y: int, width: nat, room: nat, clip: Rect): Tree
    requires c.HStack? && i < |c.entries|
    decreases c, 0, |c.entries| - i, 0
  {
    var childWidth := c.widths(width)(i);
    var childHeight := EntryHeight(c, width, room, i);
    var childY := EntryY(c, y, room, childHeight);
    if childWidth == 0 then EmptyBox(x, childY, childHeight)
    else LaidOut(c.entries[i], x, childY, childWidth, Some(childHeight), clip)
  }

  // ----- Where everything stands -----

  /** The offset of the i-th of some sizes that stand one after the other with a gap between two. */
  function Offset(sizes: nat -> nat, gap: nat, i: nat): nat {
    Sum(sizes, i) + i * gap
  }

  lemma {:induction false} OffsetsGrow(sizes: nat -> nat, gap: nat, i: nat, j: nat)
    requires i < j
    ensures Offset(sizes, gap, 0) == 0
    ensures Offset(sizes, gap, i + 1) == Offset(sizes, gap, i) + sizes(i) + gap
    ensures Offset(sizes, gap, i) + sizes(i) + gap <= Offset(sizes, gap, j)
  {
    assert (i + 1) * gap == i * gap + gap;
    if i + 1 < j {
      OffsetsGrow(sizes, gap, i, j - 1);
      assert (j - 1 + 1) * gap == (j - 1) * gap + gap;
    }
  }

  /** The entries of a column from the k-th on, found among those from the i-th on. */
  lemma {:induction false} StackedFrom(c: Component, i: nat, k: nat, x: int, y: int, start: int, width: nat, height: Option<int>, clip: Rect)
    requires c.VStack? && i <= k <= |c.entries|
    requires start == y + Offset(c.heights(width, height), c.gap, i)
    ensures |Stacked(c, i, x, start, width, height, clip)| == |c.entries| - i
    ensures Stacked(c, i, x, start, width, height, clip)[k - i..]
            == Stacked(c, k, x, y + Offset(c.heights(width, height), c.gap, k), width, height, clip)
    decreases |c.entries| - i
  {
    var whole := Stacked(c, i, x, start, width, height, clip);
    if i < |c.entries| {
      var sizes := c.heights(width, height);
      OffsetsGrow(sizes, c.gap, i, i + 1);
      var next := start + sizes(i) + c.gap;
      StackedFrom(c, i + 1, if i < k then k else i + 1, x, y, next, width, height, clip);
      assert whole[1..] == Stacked(c, i + 1, x, next, width, height, clip);
      if i < k {
        assert whole[k - i..] == whole[1..][k - i - 1..];
      }
    }
  }

  /** The k-th entry of a row, found among those from the i-th on. */
  lemma {:induction false} InRowAt(c: Component, i: nat, k: nat, x: int, start: int, y: int, width: nat, room: nat, clip: Rect)
    requires c.HStack? && i <= k < |c.entries|
    requires start == x + Offset(c.widths(width), c.gap, i)
    ensures var sizes, rest := c.widths(width), InRow(c, i, start, y, width, room, clip);
            |rest| == |c.entries| - i && rest[k - i] == Entry(c, k, x + Offset(sizes, c.gap, k), y, width, room, clip)
    decreases |c.entries| - i
  {
    if i + 1 < |c.entries| {
      var sizes := c.widths(width);
      OffsetsGrow(sizes, c.gap, i, i + 1);
      InRowAt(c, i + 1, if i < k then k else i + 1, x, start + sizes(i) + c.gap, y, width, room, clip);
    }
  }

  /** `r` is the largest of the first n sizes, or 0 when there is none. */
  ghost predicate IsLargest(sizes: nat -> nat, n: nat, r: nat) {
    && (forall i :: 0 <= i < n ==> sizes(i) <= r)
    && (n > 0 ==> exists i: nat :: i < n && sizes(i) == r)
    && (n == 0 ==> r == 0)
  }

  lemma {:induction false} LargestExactly(sizes: nat -> nat, n: nat)
    ensures IsLargest(sizes, n, Largest(sizes, n))
  {
    if n > 0 {
      LargestExactly(sizes, n - 1);
      if Largest(sizes, n) == sizes(n - 1) {
        assert n - 1 < n && sizes(n - 1) == Largest(sizes, n);
      } else {
        var i: nat :| i < n - 1 && sizes(i) == Largest(sizes, n - 1);
        assert i < n && sizes(i) == Largest(sizes, n);
      }
    }
  }

  /**
    The box of a component: where it was asked to stand, at least one cell wide, and as high as
    asked. Only a scroll view is marked as one.
  */
  lemma PlacedAsAsked(c: Component, x: int, y: int, width: int, height: Option<int>, clip: Rect)
    ensures var t := LaidOut(c, x, y, width, height, clip);
            && t.rect.x == x && t.rect.y == y
            && t.rect.width == (if width >= 1 then width else 1)
            && (height.Some? ==> t.rect.height == if height.value >= 0 then height.value else 0)
            && t.scrollView == if c.Scroll? then Some(c.view) else None
  {
  }

  /** The box of a component that may be as high as it likes. */
  lemma NaturalHeight(c: Component, x: int, y: int, width: int, clip: Rect)
    ensures var t, w := LaidOut(c, x, y, width, None, clip), Max(1, width);
            && (c.Leaf? ==> t.rect.height == c.lineCount(w))
            && (c.Scroll? ==> |t.children| == 1 && t.rect.height == t.children[0].rect.height)
            && (c.VStack? && c.entries != [] ==> t.rect.height == Offset(c.heights(w, None), c.gap, |c.entries|) - c.gap)
            && (c.VStack? && c.entries == [] ==> t.rect.height == 0)
            && (c.HStack? ==> IsLargest(c.naturalHeights(w), |c.entries|, t.rect.height))
  {
    match c
    case HStack(_, _, _, _, _) => LargestExactly(c.naturalHeights(Max(1, width)), |c.entries|);
    case VStack(_, entries, _) =>
      if entries != [] {
        assert (|entries| - 1) * c.gap == |entries| * c.gap - c.gap;
      }
    case _ =>
  }

  /** The i-th entry of a column: below the entries before it and the gaps between them, as wide as the column. */
  lemma ColumnEntry(c: Component, x: int, y: int, width: int, height: Option<int>, clip: Rect, i: nat)
    requires c.VStack? && i < |c.entries|
    ensures var t, w := LaidOut(c, x, y, width, height, clip), Max(1, width);
            var sizes := c.heights(w, height);
            && |t.children| == |c.entries|
            && t.children[i] == LaidOut(c.entries[i], x, y + Offset(sizes, c.gap, i), w, Some(sizes(i)), t.clip)
            && t.children[i].rect == Rect(x, y + Offset(sizes, c.gap, i), w, sizes(i))
  {
    var t, w := LaidOut(c, x, y, width, height, clip), SafeWidth(width);
    var sizes := c.heights(w, height);
    assert Offset(sizes, c.gap, 0) == 0;
    StackedFrom(c, 0, i, x, y, y, w, height, t.clip);
    assert t == LaidOutStack(c, x, y, w, height, clip);
    assert t.children[i] == t.children[i..][0];
    PlacedAsAsked(c.entries[i], x, y + Offset(sizes, c.gap, i), w, Some(sizes(i)), t.clip);
  }

  /** How an entry of a row stands in the height of the row. */
  ghost predicate IsAligned(align: Align, rect: Rect, y: int, room: nat, natural: nat) {
    match align
    case Stretch => rect.y == y && rect.height == room
    case Start => rect.y == y && rect.height == Min(room, natural)
    case End => rect.y + rect.height == y + room && rect.height == Min(room, natural)
    case Center =>
      && rect.height == Min(room, natural)
      && var above, below := rect.y - y, y + room - (rect.y + rect.height);
         above <= below <= above + 1
  }

  /**
    The i-th entry of a row: right of the entries before it and the gaps between them, and
    aligned in the height of the row. An entry without width is a box without cells.
  */
  lemma RowEntry(c: Component, x: int, y: int, width: int, height: Option<int>, clip: Rect, i: nat)
    requires c.HStack? && i < |c.entries|
    ensures var t, w := LaidOut(c, x, y, width, height, clip), Max(1, width);
            var sizes := c.widths(w);
            && |t.children| == |c.entries|
            && var child := t.children[i];
               && child.rect.x == x + Offset(sizes, c.gap, i) && child.rect.width == sizes(i)
               && IsAligned(c.align, child.rect, y, t.rect.height, c.naturalHeights(w)(i))
               && child == if sizes(i) == 0 then Tree(child.rect, Rect(child.rect.x, child.rect.y, 0, 0), None, [])
                           else LaidOut(c.entries[i], child.rect.x, child.rect.y, sizes(i), Some(child.rect.height), t.clip)
  {
    var t, w := LaidOut(c, x, y, width, height, clip), SafeWidth(width);
    var sizes := c.widths(w);
    assert Offset(sizes, c.gap, 0) == 0;
    InRowAt(c, 0, i, x, x, y, w, t.rect.height, t.clip);
    var childHeight := EntryHeight(c, w, t.rect.height, i);
    if sizes(i) > 0 {
      PlacedAsAsked(c.entries[i], x + Offset(sizes, c.gap, i), EntryY(c, y, t.rect.height, childHeight),
                    sizes(i), Some(childHeight), t.clip);
    }
  }

  /** Two entries of a stack stand apart by at least its gap, so they never share a cell. */
  lemma SiblingsStandApart(c: Component, x: int, y: int, width: int, height: Option<int>, clip: Rect, i: nat, j: nat, px: int, py: int)
    requires (c.VStack? || c.HStack?) && i < j < |c.entries|
    ensures var t := LaidOut(c, x, y, width, height, clip);
            && |t.children| == |c.entries|
            && var a, b := t.children[i].rect, t.children[j].rect;
               && (c.VStack? ==> a.y + a.height + c.gap <= b.y && (j == i + 1 ==> a.y + a.height + c.gap == b.y))
               && (c.HStack? ==> a.x + a.width + c.gap <= b.x && (j == i + 1 ==> a.x + a.width + c.gap == b.x))
               && !(ContainsPoint(a, px, py) && ContainsPoint(b, px, py))
  {
    var w := SafeWidth(width);
    if c.VStack? {
      ColumnEntry(c, x, y, width, height, clip, i);
      ColumnEntry(c, x, y, width, height, clip, j);
      OffsetsGrow(c.heights(w, height), c.gap, i, j);
    } else {
      RowEntry(c, x, y, width, height, clip, i);
      RowEntry(c, x, y, width, height, clip, j);
      OffsetsGrow(c.widths(w), c.gap, i, j);
    }
  }

  /**
    The content of a scroll view stands above the view by the scroll offset. The offset never
    leaves room below the content, and is as large as that allows while the view follows its end.
  */
  lemma ScrollPlaces(c: Component, x: int, y: int, width: int, height: Option<int>, clip: Rect)
    requires c.Scroll?
    ensures var t := LaidOut(c, x, y, width, height, clip);
            && |t.children| == 1
            && var content := t.children[0].rect;
               var scrollTop, room := y - content.y, content.height - t.rect.height;
               && content.x == x && content.width == Max(1, c.contentWidth(Max(1, width)))
               && content.height == LaidOut(c.content, x, y, c.contentWidth(Max(1, width)), None, clip).rect.height
               && 0 <= scrollTop && (scrollTop > 0 ==> scrollTop <= room)
               && (c.following && room > 0 ==> scrollTop == room)
               && (!c.following ==> scrollTop <= c.scrollTop && (c.scrollTop <= room ==> scrollTop == c.scrollTop)
                                    && (0 <= room < c.scrollTop ==> scrollTop == room))
  {
    var w := SafeWidth(width);
    var child := LaidOut(c.content, x, y - c.scrollTop, c.contentWidth(w), None, clip);
    PlacedAsAsked(c.content, x, y - c.scrollTop, c.contentWidth(w), None, clip);
    MovedIsLaidOut(c.content, x, y - c.scrollTop, c.contentWidth(w), None, clip, clip, c.scrollTop);
    assert y - c.scrollTop + c.scrollTop == y;
  }

  // ----- Clips -----

  /** After any layout, every clip is exactly the overlap of the box with the clip around it. */
  lemma {:induction false} LaidOutIsClipped(c: Component, x: int, y: int, width: int, height: Option<int>, clip: Rect)
    ensures Clipped(LaidOut(c, x, y, width, height, clip), clip)
    decreases c, 3
  {
    match c
    case Leaf(lineCount) =>
      ClippedNode(Rect(x, y, SafeWidth(width), Allocated(height, lineCount(SafeWidth(width)))), clip, None, []);
    case Scroll(_, _, _, _, _) => ScrollIsClipped(c, x, y, SafeWidth(width), height, clip);
    case VStack(_, _, _) => StackIsClipped(c, x, y, SafeWidth(width), height, clip);
    case HStack(_, _, _, _, _) => RowIsClipped(c, x, y, SafeWidth(width), height, clip);
  }

  lemma ScrollIsClipped(c: Component, x: int, y: int, width: nat, height: Option<int>, clip: Rect)
    requires c.Scroll?
    ensures Clipped(LaidOutScroll(c, x, y, width, height, clip), clip)
  {
    ScrollBoxIsClipped(c, LaidOut(c.content, x, y - c.scrollTop, c.contentWidth(width), None, clip), x, y, width, height, clip);
  }

  lemma ScrollBoxIsClipped(c: Component, child: Tree, x: int, y: int, width: nat, height: Option<int>, clip: Rect)
    requires c.Scroll?
    ensures Clipped(ScrollBox(c, child, x, y, width, height, clip), clip)
  {
    var rect := Rect(x, y, width, Allocated(height, child.rect.height));
    var moved := Translate(child, Shift(c, child, height));
    UpdatedIsClipped(moved, Intersect(clip, rect));
    ClippedNode(rect, clip, Some(c.view), [UpdateClips(moved, Intersect(clip, rect))]);
  }

  lemma {:induction false} StackIsClipped(c: Component, x: int, y: int, width: nat, height: Option<int>, clip: Rect)
    requires c.VStack?
    ensures Clipped(LaidOutStack(c, x, y, width, height, clip), clip)
    decreases c, 2
  {
    var rect := Rect(x, y, width, StackHeight(c, width, height));
    StackedIsClipped(c, 0, x, y, width, height, Intersect(clip, rect));
    ClippedNode(rect, clip, None, Stacked(c, 0, x, y, width, height, Intersect(clip, rect)));
  }

  lemma {:induction false} RowIsClipped(c: Component, x: int, y: int, width: nat, height: Option<int>, clip: Rect)
    requires c.HStack?
    ensures Clipped(LaidOutRow(c, x, y, width, height, clip), clip)
    decreases c, 2
  {
    var rect := Rect(x, y, width, RowHeight(c, width, height));
    InRowIsClipped(c, 0, x, y, width, rect.height, Intersect(clip, rect));
    ClippedNode(rect, clip, None, InRow(c, 0, x, y, width, rect.height, Intersect(clip, rect)));
  }

  lemma ClippedNode(rect: Rect, clip: Rect, view: Option<nat>, children: seq<Tree>)
    requires forall c :: c in children ==> Clipped(c, Intersect(clip, rect))
    ensures Clipped(Tree(rect, Intersect(clip, rect), view, children), clip)
  {
    IntersectIsOverlap(clip, rect);
  }

  lemma {:induction false} StackedIsClipped(
      c: Component, i: nat, x: int, y: int, width: nat, height: Option<int>, clip: Rect)
    requires c.VStack? && i <= |c.entries|
    ensures forall t :: t in Stacked(c, i, x, y, width, height, clip) ==> Clipped(t, clip)
    decreases c, 0, |c.entries| - i
  {
    if i < |c.entries| {
      var size := c.heights(width, height)(i);
      LaidOutIsClipped(c.entries[i], x, y, width, Some(size), clip);
      StackedIsClipped(c, i + 1, x, y + size + c.gap, width, height, clip);
    }
  }

  lemma {:induction false} InRowIsClipped(
      c: Component, i: nat, x: int, y: int, width: nat, room: nat, clip: Rect)
    requires c.HStack? && i <= |c.entries|
    ensures forall t :: t in InRow(c, i, x, y, width, room, clip) ==> Clipped(t, clip)
    decreases c, 0, |c.entries| - i
  {
    if i < |c.entries| {
      EntryIsClipped(c, i, x, y, width, room, clip);
      InRowIsClipped(c, i + 1, x + c.widths(width)(i) + c.gap, y, width, room, clip);
    }
  }

  lemma {:induction false} EntryIsClipped(
      c: Component, i: nat, x: int, y: int, width: nat, room: nat, clip: Rect)
    requires c.HStack? && i < |c.entries|
    ensures Clipped(Entry(c, i, x, y, width, room, clip), clip)
    decreases c, 0, |c.entries| - i, 0
  {
    var childHeight := EntryHeight(c, width, room, i);
    var childY := EntryY(c, y, room, childHeight);
    if c.widths(width)(i) > 0 {
      LaidOutIsClipped(c.entries[i], x, childY, c.widths(width)(i), Some(childHeight), clip);
    } else {
      assert Clipped(EmptyBox(x, childY, childHeight), clip);
    }
  }

  // ----- Moving boxes instead of laying them out again -----

  lemma {:induction false} SameRectsTransitive(a: Tree, b: Tree, c: Tree)
    requires SameRects(a, b) && SameRects(b, c)
    ensures SameRects(a, c)
    decreases a
  {
    forall i | 0 <= i < |a.children| ensures SameRects(a.children[i], c.children[i]) {
      SameRectsTransitive(a.children[i], b.children[i], c.children[i]);
    }
  }

  lemma {:induction false} SameRectsSymmetric(a: Tree, b: Tree)
    requires SameRects(a, b)
    ensures SameRects(b, a)
    decreases a
  {
    forall i | 0 <= i < |a.children| ensures SameRects(b.children[i], a.children[i]) {
      SameRectsSymmetric(a.children[i], b.children[i]);
    }
  }

  lemma {:induction false} TranslateKeepsSame(a: Tree, b: Tree, deltaY: int)
    requires SameRects(a, b)
    ensures SameRects(Translate(a, deltaY), Translate(b, deltaY))
    decreases a
  {
    forall i | 0 <= i < |a.children|
      ensures SameRects(Translate(a, deltaY).children[i], Translate(b, deltaY).children[i])
    {
      TranslateKeepsSame(a.children[i], b.children[i], deltaY);
    }
  }

  lemma {:induction false} TranslateTwice(t: Tree, d: int, e: int)
    ensures SameRects(Translate(Translate(t, d), e), Translate(t, d + e))
    decreases t
  {
    forall i | 0 <= i < |t.children|
      ensures SameRects(Translate(Translate(t, d), e).children[i], Translate(t, d + e).children[i])
    {
      TranslateTwice(t.children[i], d, e);
    }
  }

  /** Equal rectangles get equal clips. */
  lemma {:induction false} SameRectsSameClips(a: Tree, b: Tree, clip: Rect)
    requires SameRects(a, b)
    ensures UpdateClips(a, clip) == UpdateClips(b, clip)
    decreases a
  {
    var inner := Intersect(clip, a.rect);
    forall i | 0 <= i < |a.children|
      ensures UpdateAllClips(a.children, inner)[i] == UpdateAllClips(b.children, inner)[i]
    {
      SameRectsSameClips(a.children[i], b.children[i], inner);
    }
    assert UpdateAllClips(a.children, inner) == UpdateAllClips(b.children, inner);
  }

  /** Moving the boxes of a layout places them where a layout that starts lower places them. */
  lemma {:induction false} MovedIsLaidOut(
      c: Component, x: int, y: int, width: int, height: Option<int>, clip: Rect, clip': Rect, deltaY: int)
    ensures SameRects(Translate(LaidOut(c, x, y, width, height, clip), deltaY),
                      LaidOut(c, x, y + deltaY, width, height, clip'))
    decreases c, 3
  {
    match c
    case Leaf(_) =>
    case Scroll(_, _, _, _, _) => MovedScroll(c, x, y, SafeWidth(width), height, clip, clip', deltaY);
    case VStack(_, _, _) => MovedStack(c, x, y, SafeWidth(width), height, clip, clip', deltaY);
    case HStack(_, _, _, _, _) => MovedRow(c, x, y, SafeWidth(width), height, clip, clip', deltaY);
  }

  /** The same boxes: moved by one offset and clipped, then moved by another; or the other way round. */
  lemma MovedTwice(child: Tree, child': Tree, shift: int, deltaY: int, clip: Rect, clip': Rect)
    requires SameRects(Translate(child, deltaY), child')
    ensures SameRects(Translate(UpdateClips(Translate(child, shift), clip), deltaY),
                      UpdateClips(Translate(child', shift), clip'))
  {
    var moved, moved' := Translate(child, shift), Translate(child', shift);
    var a, f := Translate(UpdateClips(moved, clip), deltaY), UpdateClips(moved', clip');
    var b := Translate(moved, deltaY);
    var c, d := Translate(child, shift + deltaY), Translate(Translate(child, deltaY), shift);
    UpdateKeepsRects(moved, clip);
    TranslateKeepsSame(moved, UpdateClips(moved, clip), deltaY);
    SameRectsSymmetric(b, a);
    TranslateTwice(child, shift, deltaY);
    SameRectsTransitive(a, b, c);
    TranslateTwice(child, deltaY, shift);
    assert deltaY + shift == shift + deltaY;
    SameRectsSymmetric(d, c);
    SameRectsTransitive(a, c, d);
    TranslateKeepsSame(Translate(child, deltaY), child', shift);
    SameRectsTransitive(a, d, moved');
    UpdateKeepsRects(moved', clip');
    SameRectsTransitive(a, moved', f);
  }

  lemma MovedScrollBox(
      c: Component, child: Tree, child': Tree, x: int, y: int, width: nat, height: Option<int>,
      clip: Rect, clip': Rect, deltaY: int)
    requires c.Scroll? && SameRects(Translate(child, deltaY), child')
    ensures SameRects(Translate(ScrollBox(c, child, x, y, width, height, clip), deltaY),
                      ScrollBox(c, child', x, y + deltaY, width, height, clip'))
  {
    var inner := Intersect(clip, Rect(x, y, width, Allocated(height, child.rect.height)));
    var inner' := Intersect(clip', Rect(x, y + deltaY, width, Allocated(height, child.rect.height)));
    MovedTwice(child, child', Shift(c, child, height), deltaY, inner, inner');
  }

  lemma {:induction false} MovedScroll(
      c: Component, x: int, y: int, width: nat, height: Option<int>, clip: Rect, clip': Rect, deltaY: int)
    requires c.Scroll?
    ensures SameRects(Translate(LaidOutScroll(c, x, y, width, height, clip), deltaY),
                      LaidOutScroll(c, x, y + deltaY, width, height, clip'))
    decreases c, 2
  {
    var w := c.contentWidth(width);
    MovedIsLaidOut(c.content, x, y - c.scrollTop, w, None, clip, clip', deltaY);
    assert y - c.scrollTop + deltaY == y + deltaY - c.scrollTop;
    MovedScrollBox(c, LaidOut(c.content, x, y - c.scrollTop, w, None, clip),
                   LaidOut(c.content, x, y + deltaY - c.scrollTop, w, None, clip'),
                   x, y, width, height, clip, clip', deltaY);
  }

  ghost predicate AllMoved(ts: seq<Tree>, ts': seq<Tree>, deltaY: int) {
    |ts| == |ts'| && forall k :: 0 <= k < |ts| ==> SameRects(Translate(ts[k], deltaY), ts'[k])
  }

  lemma AllMovedCons(t: Tree, t': Tree, ts: seq<Tree>, ts': seq<Tree>, deltaY: int)
    requires SameRects(Translate(t, deltaY), t') && AllMoved(ts, ts', deltaY)
    ensures AllMoved([t] + ts, [t'] + ts', deltaY)
  {
  }

  lemma MovedBox(rect: Rect, clip: Rect, clip': Rect, ts: seq<Tree>, ts': seq<Tree>, deltaY: int)
    requires AllMoved(ts, ts', deltaY)
    ensures SameRects(Translate(Box(rect, clip, ts), deltaY), Box(rect.(y := rect.y + deltaY), clip', ts'))
  {
  }

  lemma {:induction false} MovedStack(
      c: Component, x: int, y: int, width: nat, height: Option<int>, clip: Rect, clip': Rect, deltaY: int)
    requires c.VStack?
    ensures SameRects(Translate(LaidOutStack(c, x, y, width, height, clip), deltaY),
                      LaidOutStack(c, x, y + deltaY, width, height, clip'))
    decreases c, 2
  {
    var rect := Rect(x, y, width, StackHeight(c, width, height));
    var inner, inner' := Intersect(clip, rect), Intersect(clip', rect.(y := y + deltaY));
    MovedStacked(c, 0, x, y, width, height, inner, inner', deltaY);
    MovedBox(rect, clip, clip', Stacked(c, 0, x, y, width, height, inner),
             Stacked(c, 0, x, y + deltaY, width, height, inner'), deltaY);
  }

  lemma {:induction false} MovedStacked(
      c: Component, i: nat, x: int, y: int, width: nat, height: Option<int>, clip: Rect, clip': Rect, deltaY: int)
    requires c.VStack? && i <= |c.entries|
    ensures AllMoved(Stacked(c, i, x, y, width, height, clip), Stacked(c, i, x, y + deltaY, width, height, clip'), deltaY)
    decreases c, 0, |c.entries| - i
  {
    if i < |c.entries| {
      var size := c.heights(width, height)(i);
      var next := y + size + c.gap;
      assert next + deltaY == y + deltaY + size + c.gap;
      MovedIsLaidOut(c.entries[i], x, y, width, Some(size), clip, clip', deltaY);
      MovedStacked(c, i + 1, x, next, width, height, clip, clip', deltaY);
      AllMovedCons(LaidOut(c.entries[i], x, y, width, Some(size), clip),
                   LaidOut(c.entries[i], x, y + deltaY, width, Some(size), clip'),
                   Stacked(c, i + 1, x, next, width, height, clip),
                   Stacked(c, i + 1, x, next + deltaY, width, height, clip'), deltaY);
    }
  }

  lemma {:induction false} MovedRow(
      c: Component, x: int, y: int, width: nat, height: Option<int>, clip: Rect, clip': Rect, deltaY: int)
    requires c.HStack?
    ensures SameRects(Translate(LaidOutRow(c, x, y, width, height, clip), deltaY),
                      LaidOutRow(c, x, y + deltaY, width, height, clip'))
    decreases c, 2
  {
    var rect := Rect(x, y, width, RowHeight(c, width, height));
    var inner, inner' := Intersect(clip, rect), Intersect(clip', rect.(y := y + deltaY));
    MovedInRow(c, 0, x, y, width, rect.height, inner, inner', deltaY);
    MovedBox(rect, clip, clip', InRow(c, 0, x, y, width, rect.height, inner),
             InRow(c, 0, x, y + deltaY, width, rect.height, inner'), deltaY);
  }

  lemma {:induction false} MovedInRow(
      c: Component, i: nat, x: int, y: int, width: nat, room: nat, clip: Rect, clip': Rect, deltaY: int)
    requires c.HStack? && i <= |c.entries|
    ensures AllMoved(InRow(c, i, x, y, width, room, clip), InRow(c, i, x, y + deltaY, width, room, clip'), deltaY)
    decreases c, 0, |c.entries| - i
  {
    if i < |c.entries| {
      var next := x + c.widths(width)(i) + c.gap;
      MovedEntry(c, i, x, y, width, room, clip, clip', deltaY);
      MovedInRow(c, i + 1, next, y, width, room, clip, clip', deltaY);
      AllMovedCons(Entry(c, i, x, y, width, room, clip), Entry(c, i, x, y + deltaY, width, room, clip'),
                   InRow(c, i + 1, next, y, width, room, clip), InRow(c, i + 1, next, y + deltaY, width, room, clip'), deltaY);
    }
  }

  lemma {:induction false} MovedEntry(
      c: Component, i: nat, x: int, y: int, width: nat, room: nat, clip: Rect, clip': Rect, deltaY: int)
    requires c.HStack? && i < |c.entries|
    ensures SameRects(Translate(Entry(c, i, x, y, width, room, clip), deltaY),
                      Entry(c, i, x, y + deltaY, width, room, clip'))
    decreases c, 0, |c.entries| - i, 0
  {
    var childHeight := EntryHeight(c, width, room, i);
    var childY := EntryY(c, y, room, childHeight);
    assert EntryY(c, y + deltaY, room, childHeight) == childY + deltaY;
    if c.widths(width)(i) > 0 {
      MovedIsLaidOut(c.entries[i], x, childY, c.widths(width)(i), Some(childHeight), clip, clip', deltaY);
    }
  }

  /**
    The scroll view's way of placing its content, laying it out at the old offset and then
    moving and clipping it, gives the very boxes of a layout at the new offset.
  */
  lemma ScrollingIsLayingOut(c: Component, x: int, y: int, width: nat, height: Option<int>, clip: Rect, child: Tree)
    requires c.Scroll? && child == LaidOut(c.content, x, y - c.scrollTop, c.contentWidth(width), None, clip)
    ensures var t := ScrollBox(c, child, x, y, width, height, clip);
            var scrollTop := UpdatedScrollTop(c, child.rect.height, t.rect.height);
            t.children == [UpdateClips(LaidOut(c.content, x, y - scrollTop, c.contentWidth(width), None, clip), t.clip)]
  {
    var shift := Shift(c, child, height);
    MovedIsLaidOut(c.content, x, y - c.scrollTop, c.contentWidth(width), None, clip, clip, shift);
    SameRectsSameClips(Translate(child, shift),
                       LaidOut(c.content, x, y - c.scrollTop + shift, c.contentWidth(width), None, clip),
                       Intersect(clip, Rect(x, y, width, Allocated(height, child.rect.height))));
  }
}
