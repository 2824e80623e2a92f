/**
  Laying out components as boxes that are updated in place: boxes under a scroll view are
  placed first, then moved by the scroll offset, then clipped again.
*/
module LayoutBoxes {
  import opened Arithmetic
  import opened LayoutComponents
  import opened LayoutTrees
  import opened Wrappers

  lemma TranslatedBox(t: Tree, children: seq<Tree>, deltaY: int)
    requires |children| == |t.children|
    requires forall k :: 0 <= k < |children| ==> children[k] == Translate(t.children[k], deltaY)
    ensures Translate(t, deltaY) == t.(rect := t.rect.(y := t.rect.y + deltaY), children := children)
  {
    assert TranslateAll(t.children, deltaY) == children;
  }

  lemma ClippedBox(t: Tree, children: seq<Tree>, parentClip: Rect)
    requires |children| == |t.children|
    requires forall k :: 0 <= k < |children| ==> children[k] == UpdateClips(t.children[k], Intersect(parentClip, t.rect))
    ensures UpdateClips(t, parentClip) == t.(clip := Intersect(parentClip, t.rect), children := children)
  {
    assert UpdateAllClips(t.children, Intersect(parentClip, t.rect)) == children;
  }

  class LayoutBox {
    var rect: Rect
    var clip: Rect
    const scrollView: Option<nat>
    var children: seq<LayoutBox>
    ghost var Repr: set<object>

    ghost predicate Valid()
      reads this, Repr
      decreases Repr
    {
      && this in Repr
      && (forall c :: c in children ==> c in Repr && c.Repr < Repr && this !in c.Repr && c.Valid())
      && (forall i, j :: 0 <= i < j < |children| ==> children[i].Repr !! children[j].Repr)
    }

    /** The box as a value. */
    ghost function View(): Tree
      requires Valid()
      reads this, Repr
      decreases Repr, 1
    {
      Tree(rect, clip, scrollView, ViewsFrom(0))
    }

    ghost function ViewsFrom(i: nat): (views: seq<Tree>)
      requires Valid() && i <= |children|
      ensures |views| == |children| - i
      ensures forall k :: 0 <= k < |views| ==> views[k] == children[i + k].View()
      reads this, Repr
      decreases Repr, 0, |children| - i
    {
      if i == |children| then [] else [children[i].View()] + ViewsFrom(i + 1)
    }

    constructor (rect: Rect, clip: Rect, scrollView: Option<nat>)
      ensures Valid() && fresh(Repr) && View() == Tree(rect, clip, scrollView, [])
    {
      this.rect, this.clip, this.scrollView, children, Repr := rect, clip, scrollView, [], {this};
    }

    method AddChild(child: LayoutBox)
      requires Valid() && child.Valid() && Repr !! child.Repr
      modifies this
      ensures Valid() && Repr == old(Repr) + child.Repr
      ensures View() == old(View()).(children := old(View()).children + [old(child.View())])
    {
      children := children + [child];
      Repr := Repr + child.Repr;
    }

    /** Changing one child in place keeps the box valid and leaves the other children as they were. */
    twostate lemma ChildChanged(i: nat)
      requires old(Valid()) && i < |old(children)|
      requires unchanged(this)
      requires unchanged(old(Repr) - old(children[i].Repr) - {this})
      requires children[i].Valid() && children[i].Repr == old(children[i].Repr)
      ensures Valid()
      ensures forall k :: 0 <= k < |children| && k != i ==>
                children[k].Valid() && children[k].Repr == old(children[k].Repr) && children[k].View() == old(children[k].View())
    {
    }

    method TranslateBox(deltaY: int)
      requires Valid()
      modifies Repr
      ensures Valid() && Repr == old(Repr)
      ensures View() == Translate(old(View()), deltaY)
      decreases Repr, 1
    {
      ghost var t := View();
      TranslateChildren(deltaY);
      rect := rect.(y := rect.y + deltaY);
      TranslatedBox(t, ViewsFrom(0), deltaY);
    }

    method TranslateChildren(deltaY: int)
      requires Valid()
      modifies Repr - {this}
      ensures Valid()
      ensures forall k :: 0 <= k < |children| ==> children[k].View() == Translate(old(children[k].View()), deltaY)
      decreases Repr, 0
    {
      for i := 0 to |children|
        invariant Valid()
        invariant forall k :: 0 <= k < i ==> children[k].View() == Translate(old(children[k].View()), deltaY)
        invariant forall k :: i <= k < |children| ==> children[k].View() == old(children[k].View())
      {
        label before:
        children[i].TranslateBox(deltaY);
        ChildChanged@before(i);
      }
    }

    method UpdateClips(parentClip: Rect)
      requires Valid()
      modifies Repr
      ensures Valid() && Repr == old(Repr)
      ensures View() == LayoutTrees.UpdateClips(old(View()), parentClip)
      decreases Repr, 1
    {
      ghost var t := View();
      var inner := Intersect(parentClip, rect);
      UpdateChildren(inner);
      clip := inner;
      ClippedBox(t, ViewsFrom(0), parentClip);
    }

    method UpdateChildren(parentClip: Rect)
      requires Valid()
      modifies Repr - {this}
      ensures Valid()
      ensures forall k :: 0 <= k < |children| ==>
                children[k].View() == LayoutTrees.UpdateClips(old(children[k].View()), parentClip)
      decreases Repr, 0
    {
      for i := 0 to |children|
        invariant Valid()
        invariant forall k :: 0 <= k < i ==>
                    children[k].View() == LayoutTrees.UpdateClips(old(children[k].View()), parentClip)
        invariant forall k :: i <= k < |children| ==> children[k].View() == old(children[k].View())
      {
        label before:
        children[i].UpdateClips(parentClip);
        ChildChanged@before(i);
      }
    }

    /** The hits below this box, pushed onto a growing list. */
    method Visit(x: int, y: int, depth: nat, result: seq<Hit>) returns (result': seq<Hit>)
      requires Valid()
      ensures result' == result + LayoutTrees.Visit(View(), x, y, depth)
      decreases Repr
    {
      result' := result;
      ghost var t := View();
      if !ContainsPoint(clip, x, y) {
        assert result + LayoutTrees.Visit(t, x, y, depth) == result;
        return;
      }
      ghost var hits: seq<Hit> := [];
      if scrollView.Some? && ContainsPoint(rect, x, y) {
        hits := [Hit(scrollView.value, depth)];
        result' := result' + [Hit(scrollView.value, depth)];
      }
      ghost var own := result';
      assert own == result + hits;
      for i := 0 to |children|
        invariant result' + VisitFrom(t, i, x, y, depth + 1) == own + VisitFrom(t, 0, x, y, depth + 1)
      {
        ghost var before, here, rest := result', LayoutTrees.Visit(t.children[i], x, y, depth + 1), VisitFrom(t, i + 1, x, y, depth + 1);
        assert (before + here) + rest == before + (here + rest);
        result' := children[i].Visit(x, y, depth + 1, result');
      }
      assert result' + [] == result';
      assert (result + hits) + VisitFrom(t, 0, x, y, depth + 1) == result + (hits + VisitFrom(t, 0, x, y, depth + 1));
    }
  }

  method GetScrollViewsAt(root: LayoutBox, x: int, y: int) returns (views: seq<nat>)
    requires root.Valid()
    ensures views == ScrollViewsAt(root.View(), x, y)
  {
    var result := root.Visit(x, y, 0, []);
    assert [] + Visit(root.View(), x, y, 0) == Visit(root.View(), x, y, 0);
    views := Views(DeepestFirst(result));
  }

  // ----- Laying out -----

  method LayoutComponent(c: Component, x: int, y: int, width: int, height: Option<int>, clip: Rect)
    returns (box: LayoutBox)
    ensures box.Valid() && fresh(box.Repr)
    ensures box.View() == LaidOut(c, x, y, width, height, clip)
    decreases c, 3
  {
    var safeWidth := SafeWidth(width);
    match c
    case Leaf(lineCount) =>
      var rect := Rect(x, y, safeWidth, Allocated(height, lineCount(safeWidth)));
      box := new LayoutBox(rect, Intersect(clip, rect), None);
    case Scroll(_, _, _, _, _) =>
      box := LayoutScroll(c, x, y, safeWidth, height, clip);
    case VStack(_, _, _) =>
      var rect := Rect(x, y, safeWidth, StackHeight(c, safeWidth, height));
      box := new LayoutBox(rect, Intersect(clip, rect), None);
      PushStacked(c, box, x, y, safeWidth, height);
    case HStack(_, _, _, _, _) =>
      var rect := Rect(x, y, safeWidth, RowHeight(c, safeWidth, height));
      box := new LayoutBox(rect, Intersect(clip, rect), None);
      PushRow(c, box, x, y, safeWidth, rect.height);
  }

  method LayoutScroll(c: Component, x: int, y: int, width: nat, height: Option<int>, clip: Rect)
    returns (box: LayoutBox)
    requires c.Scroll?
    ensures box.Valid() && fresh(box.Repr)
    ensures box.View() == LaidOutScroll(c, x, y, width, height, clip)
    decreases c, 2
  {
    var childBox := LayoutComponent(c.content, x, y - c.scrollTop, c.contentWidth(width), None, clip);
    ghost var laidOut := childBox.View();
    var rect := MoveContent(c, childBox, x, y, width, height, clip);
    box := WrapContent(c, childBox, rect, clip);
    assert box.View() == ScrollBox(c, laidOut, x, y, width, height, clip);
  }

  /** Moves laid-out content to the new scroll offset and clips it to the view. */
  method MoveContent(c: Component, childBox: LayoutBox, x: int, y: int, width: nat, height: Option<int>, clip: Rect)
    returns (rect: Rect)
    requires c.Scroll? && childBox.Valid()
    modifies childBox.Repr
    ensures childBox.Valid() && childBox.Repr == old(childBox.Repr)
    ensures rect == Rect(x, y, width, Allocated(height, old(childBox.View()).rect.height))
    ensures childBox.View()
         == UpdateClips(Translate(old(childBox.View()), Shift(c, old(childBox.View()), height)), Intersect(clip, rect))
  {
    var contentHeight := childBox.rect.height;
    ghost var before := childBox.View();
    assert before.rect.height == contentHeight;
    var viewportHeight := Allocated(height, contentHeight);
    var scrollTop := UpdatedScrollTop(c, contentHeight, viewportHeight);
    rect := Rect(x, y, width, viewportHeight);
    assert c.scrollTop - scrollTop == Shift(c, before, height);
    MoveAndClip(childBox, c.scrollTop - scrollTop, Intersect(clip, rect));
  }

  method MoveAndClip(box: LayoutBox, deltaY: int, clip: Rect)
    requires box.Valid()
    modifies box.Repr
    ensures box.Valid() && box.Repr == old(box.Repr)
    ensures box.View() == UpdateClips(Translate(old(box.View()), deltaY), clip)
  {
    box.TranslateBox(deltaY);
    box.UpdateClips(clip);
  }

  method WrapContent(c: Component, childBox: LayoutBox, rect: Rect, clip: Rect) returns (box: LayoutBox)
    requires c.Scroll? && childBox.Valid()
    ensures box.Valid() && fresh(box.Repr - childBox.Repr)
    ensures box.View() == Tree(rect, Intersect(clip, rect), Some(c.view), [childBox.View()])
  {
    box := new LayoutBox(rect, Intersect(clip, rect), Some(c.view));
    box.AddChild(childBox);
  }

  lemma Regroup(done: seq<Tree>, t: Tree, rest: seq<Tree>)
    ensures (done + [t]) + rest == done + ([t] + rest)
  {
  }

  lemma StackedStep(c: Component, i: nat, x: int, y: int, width: nat, height: Option<int>, clip: Rect, done: seq<Tree>)
    requires c.VStack? && i < |c.entries|
    ensures var size := c.heights(width, height)(i);
            (done + [LaidOut(c.entries[i], x, y, width, Some(size), clip)])
            + Stacked(c, i + 1, x, y + size + c.gap, width, height, clip)
            == done + Stacked(c, i, x, y, width, height, clip)
  {
    var size := c.heights(width, height)(i);
    Regroup(done, LaidOut(c.entries[i], x, y, width, Some(size), clip),
            Stacked(c, i + 1, x, y + size + c.gap, width, height, clip));
  }

  method PushStacked(c: Component, box: LayoutBox, x: int, y: int, width: nat, height: Option<int>)
    requires c.VStack? && box.Valid() && box.children == []
    modifies box
    ensures box.Valid() && fresh(box.Repr - old(box.Repr))
    ensures box.View() == old(box.View()).(children := Stacked(c, 0, x, y, width, height, box.clip))
    decreases c, 2
  {
    var childY := y;
    ghost var t := box.View();
    ghost var done: seq<Tree> := [];
    ghost var whole := Stacked(c, 0, x, y, width, height, box.clip);
    for i := 0 to |c.entries|
      invariant box.Valid() && fresh(box.Repr - old(box.Repr))
      invariant box.View() == t.(children := done)
      invariant done + Stacked(c, i, x, childY, width, height, t.clip) == whole
    {
      var size := c.heights(width, height)(i);
      StackedStep(c, i, x, childY, width, height, t.clip, done);
      PushEntry(box, c.entries[i], x, childY, width, size);
      done := done + [LaidOut(c.entries[i], x, childY, width, Some(size), t.clip)];
      childY := childY + size + c.gap;
    }
    assert done + [] == done;
  }

  method PushEntry(box: LayoutBox, entry: Component, x: int, y: int, width: nat, size: nat)
    requires box.Valid()
    modifies box
    ensures box.Valid() && fresh(box.Repr - old(box.Repr))
    ensures box.View() == old(box.View()).(
              children := old(box.View()).children + [LaidOut(entry, x, y, width, Some(size), old(box.clip))])
    decreases entry, 4
  {
    var child := LayoutComponent(entry, x, y, width, Some(size), box.clip);
    box.AddChild(child);
  }

  method PushRow(c: Component, box: LayoutBox, x: int, y: int, width: nat, room: nat)
    requires c.HStack? && box.Valid() && box.children == []
    modifies box
    ensures box.Valid() && fresh(box.Repr - old(box.Repr))
    ensures box.View() == old(box.View()).(children := InRow(c, 0, x, y, width, room, box.clip))
    decreases c, 2
  {
    var childX := x;
    ghost var t := box.View();
    ghost var done: seq<Tree> := [];
    ghost var whole := InRow(c, 0, x, y, width, room, box.clip);
    for i := 0 to |c.entries|
      invariant box.Valid() && fresh(box.Repr - old(box.Repr))
      invariant box.View() == t.(children := done)
      invariant done + InRow(c, i, childX, y, width, room, t.clip) == whole
    {
      var child := LayoutEntry(c, i, childX, y, width, room, box.clip);
      ghost var entry := child.View();
      Regroup(done, entry, InRow(c, i + 1, childX + c.widths(width)(i) + c.gap, y, width, room, t.clip));
      box.AddChild(child);
      done := done + [entry];
      childX := childX + c.widths(width)(i) + c.gap;
    }
    assert done + [] == done;
  }

  method LayoutEntry(c: Component, i: nat, x: int, y: int, width: nat, room: nat, clip: Rect)
    returns (box: LayoutBox)
    requires c.HStack? && i < |c.entries|
    ensures box.Valid() && fresh(box.Repr)
    ensures box.View() == Entry(c, i, x, y, width, room, clip)
    decreases c, 1
  {
    var childHeight := EntryHeight(c, width, room, i);
    var childY := EntryY(c, y, room, childHeight);
    var childWidth := c.widths(width)(i);
    if childWidth == 0 {
      box := new LayoutBox(Rect(x, childY, 0, childHeight), Rect(x, childY, 0, 0), None);
    } else {
      box := LayoutComponent(c.entries[i], x, childY, childWidth, Some(childHeight), clip);
    }
  }
}
