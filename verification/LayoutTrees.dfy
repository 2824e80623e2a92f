/**
  Rectangles as sets of cells, laid-out boxes as trees of values, and hit testing: the
  descent that stops at clips finds what a scan of all boxes finds.
*/
module LayoutTrees {
  import opened Arithmetic
  import opened Wrappers

  datatype Rect = Rect(x: int, y: int, width: nat, height: nat)

  predicate ContainsPoint(r: Rect, x: int, y: int) {
    r.x <= x < r.x + r.width && r.y <= y < r.y + r.height
  }

  function Intersect(a: Rect, b: Rect): Rect {
    var x, y := Max(a.x, b.x), Max(a.y, b.y);
    var right, bottom := Min(a.x + a.width, b.x + b.width), Min(a.y + a.height, b.y + b.height);
    Rect(x, y, Max(0, right - x), Max(0, bottom - y))
  }

  /** The cells of a are exactly the cells that b and c share. */
  ghost predicate IsOverlap(a: Rect, b: Rect, c: Rect) {
    forall x, y :: ContainsPoint(a, x, y) <==> ContainsPoint(b, x, y) && ContainsPoint(c, x, y)
  }

  lemma IntersectIsOverlap(a: Rect, b: Rect)
    ensures IsOverlap(Intersect(a, b), a, b)
  {
  }

  // ----- Boxes as values -----

  datatype Tree = Tree(rect: Rect, clip: Rect, scrollView: Option<nat>, children: seq<Tree>)

  /** Every clip is the overlap of the box with the clip around it, all the way down. */
  ghost predicate Clipped(t: Tree, clip: Rect) {
    IsOverlap(t.clip, clip, t.rect) && forall c :: c in t.children ==> Clipped(c, t.clip)
  }

  function Translate(t: Tree, deltaY: int): Tree {
    t.(rect := t.rect.(y := t.rect.y + deltaY), children := TranslateAll(t.children, deltaY))
  }

  function TranslateAll(ts: seq<Tree>, deltaY: int): (moved: seq<Tree>)
    ensures |moved| == |ts| && forall i :: 0 <= i < |ts| ==> moved[i] == Translate(ts[i], deltaY)
  {
    if ts == [] then [] else [Translate(ts[0], deltaY)] + TranslateAll(ts[1..], deltaY)
  }

  function UpdateClips(t: Tree, parentClip: Rect): Tree {
    var clip := Intersect(parentClip, t.rect);
    t.(clip := clip, children := UpdateAllClips(t.children, clip))
  }

  function UpdateAllClips(ts: seq<Tree>, parentClip: Rect): (updated: seq<Tree>)
    ensures |updated| == |ts| && forall i :: 0 <= i < |ts| ==> updated[i] == UpdateClips(ts[i], parentClip)
  {
    if ts == [] then [] else [UpdateClips(ts[0], parentClip)] + UpdateAllClips(ts[1..], parentClip)
  }

  /** Whatever the clips were, for instance after a translation, recomputing them sets them right. */
  lemma {:induction false} UpdatedIsClipped(t: Tree, parentClip: Rect)
    ensures Clipped(UpdateClips(t, parentClip), parentClip)
    decreases t
  {
    var updated := UpdateClips(t, parentClip);
    IntersectIsOverlap(parentClip, t.rect);
    forall c | c in updated.children ensures Clipped(c, updated.clip) {
      var i :| 0 <= i < |updated.children| && updated.children[i] == c;
      UpdatedIsClipped(t.children[i], updated.clip);
    }
  }

  predicate HasPath(t: Tree, path: seq<nat>)
    decreases |path|
  {
    path == [] || (path[0] < |t.children| && HasPath(t.children[path[0]], path[1..]))
  }

  function BoxAt(t: Tree, path: seq<nat>): Tree
    requires HasPath(t, path)
    decreases |path|
  {
    if path == [] then t else BoxAt(t.children[path[0]], path[1..])
  }

  /** The point lies in the box at the end of the path and in every box on the way. */
  predicate OnPath(t: Tree, path: seq<nat>, x: int, y: int)
    requires HasPath(t, path)
    decreases |path|
  {
    ContainsPoint(t.rect, x, y) && (path == [] || OnPath(t.children[path[0]], path[1..], x, y))
  }

  /** What a clip means: a cell of a box shows if and only if the viewport and all boxes around it have it too. */
  lemma {:induction false} ClipIsWhatShows(t: Tree, clip: Rect, path: seq<nat>, x: int, y: int)
    requires Clipped(t, clip) && HasPath(t, path)
    ensures ContainsPoint(BoxAt(t, path).clip, x, y) <==> ContainsPoint(clip, x, y) && OnPath(t, path, x, y)
    decreases |path|
  {
    assert ContainsPoint(t.clip, x, y) <==> ContainsPoint(clip, x, y) && ContainsPoint(t.rect, x, y);
    if path != [] {
      ClipIsWhatShows(t.children[path[0]], t.clip, path[1..], x, y);
    }
  }

  /** Recomputing the clips moves no box. */
  lemma {:induction false} UpdateKeepsRects(t: Tree, parentClip: Rect)
    ensures SameRects(t, UpdateClips(t, parentClip))
    decreases t
  {
    forall i | 0 <= i < |t.children| ensures SameRects(t.children[i], UpdateClips(t, parentClip).children[i]) {
      UpdateKeepsRects(t.children[i], Intersect(parentClip, t.rect));
    }
  }

  ghost predicate SameRects(a: Tree, b: Tree) {
    && a.rect == b.rect && a.scrollView == b.scrollView && |a.children| == |b.children|
    && forall i :: 0 <= i < |a.children| ==> SameRects(a.children[i], b.children[i])
  }

  // ----- Hit testing -----

  datatype Hit = Hit(scrollView: nat, depth: nat)

  predicate IsHit(t: Tree, x: int, y: int) {
    t.scrollView.Some? && ContainsPoint(t.rect, x, y)
  }

  /** The descent of the source: a box whose clip misses the point is skipped with all its children. */
  function Visit(t: Tree, x: int, y: int, depth: nat): seq<Hit>
    decreases t, 1
  {
    if !ContainsPoint(t.clip, x, y) then []
    else
      (if IsHit(t, x, y) then [Hit(t.scrollView.value, depth)] else [])
      + VisitFrom(t, 0, x, y, depth + 1)
  }

  /** The same for the children from the i-th on. */
  function VisitFrom(t: Tree, i: nat, x: int, y: int, depth: nat): seq<Hit>
    requires i <= |t.children|
    decreases t, 0, |t.children| - i
  {
    if i == |t.children| then [] else Visit(t.children[i], x, y, depth) + VisitFrom(t, i + 1, x, y, depth)
  }

  /** A scan of every box, in order: a scroll view whose box and clip contain the point is a hit. */
  function Scan(t: Tree, x: int, y: int, depth: nat): seq<Hit>
    decreases t, 1
  {
    (if IsHit(t, x, y) && ContainsPoint(t.clip, x, y) then [Hit(t.scrollView.value, depth)] else [])
    + ScanFrom(t, 0, x, y, depth + 1)
  }

  function ScanFrom(t: Tree, i: nat, x: int, y: int, depth: nat): seq<Hit>
    requires i <= |t.children|
    decreases t, 0, |t.children| - i
  {
    if i == |t.children| then [] else Scan(t.children[i], x, y, depth) + ScanFrom(t, i + 1, x, y, depth)
  }

  lemma {:induction false} NothingOutsideTheClip(t: Tree, clip: Rect, x: int, y: int, depth: nat)
    requires Clipped(t, clip) && !ContainsPoint(clip, x, y)
    ensures Scan(t, x, y, depth) == []
    decreases t, 1
  {
    assert !ContainsPoint(t.clip, x, y);
    NothingInChildren(t, 0, clip, x, y, depth + 1);
  }

  lemma {:induction false} NothingInChildren(t: Tree, i: nat, clip: Rect, x: int, y: int, depth: nat)
    requires i <= |t.children| && Clipped(t, clip) && !ContainsPoint(t.clip, x, y)
    ensures ScanFrom(t, i, x, y, depth) == []
    decreases t, 0, |t.children| - i
  {
    if i < |t.children| {
      NothingOutsideTheClip(t.children[i], t.clip, x, y, depth);
      NothingInChildren(t, i + 1, clip, x, y, depth);
    }
  }

  /** Pruning is safe: the descent finds exactly what the scan finds, in the same order. */
  lemma {:induction false} VisitIsScan(t: Tree, clip: Rect, x: int, y: int, depth: nat)
    requires Clipped(t, clip)
    ensures Visit(t, x, y, depth) == Scan(t, x, y, depth)
    decreases t, 1
  {
    if ContainsPoint(t.clip, x, y) {
      VisitFromIsScanFrom(t, 0, clip, x, y, depth + 1);
    } else {
      NothingInChildren(t, 0, clip, x, y, depth + 1);
    }
  }

  lemma {:induction false} VisitFromIsScanFrom(t: Tree, i: nat, clip: Rect, x: int, y: int, depth: nat)
    requires i <= |t.children| && Clipped(t, clip)
    ensures VisitFrom(t, i, x, y, depth) == ScanFrom(t, i, x, y, depth)
    decreases t, 0, |t.children| - i
  {
    if i < |t.children| {
      VisitIsScan(t.children[i], t.clip, x, y, depth);
      VisitFromIsScanFrom(t, i + 1, clip, x, y, depth);
    }
  }

  // ----- Deepest first -----

  function Insert(hit: Hit, sorted: seq<Hit>): seq<Hit> {
    if sorted == [] then [hit]
    else if sorted[0].depth > hit.depth then [sorted[0]] + Insert(hit, sorted[1..])
    else [hit] + sorted
  }

  /** The stable sort of the source, by descending depth. */
  function DeepestFirst(hits: seq<Hit>): seq<Hit> {
    if hits == [] then [] else Insert(hits[0], DeepestFirst(hits[1..]))
  }

  /** The hits of one depth, in order. */
  function AtDepth(hits: seq<Hit>, depth: nat): seq<Hit> {
    if hits == [] then []
    else if hits[0].depth == depth then [hits[0]] + AtDepth(hits[1..], depth)
    else AtDepth(hits[1..], depth)
  }

  lemma {:induction false} AtDepthConcat(a: seq<Hit>, b: seq<Hit>, depth: nat)
    ensures AtDepth(a + b, depth) == AtDepth(a, depth) + AtDepth(b, depth)
    ensures |a| == 1 ==> AtDepth(a, depth) == if a[0].depth == depth then a else []
  {
    if a == [] {
      assert a + b == b;
    } else {
      assert (a + b)[1..] == a[1..] + b;
      AtDepthConcat(a[1..], b, depth);
    }
  }

  ghost predicate Descending(hits: seq<Hit>) {
    forall i, j :: 0 <= i < j < |hits| ==> hits[i].depth >= hits[j].depth
  }

  lemma {:induction false} InsertKeeps(hit: Hit, sorted: seq<Hit>, depth: nat)
    requires Descending(sorted)
    ensures Descending(Insert(hit, sorted)) && |Insert(hit, sorted)| == |sorted| + 1
    ensures AtDepth(Insert(hit, sorted), depth) == AtDepth([hit] + sorted, depth)
    ensures forall h :: h in Insert(hit, sorted) <==> h == hit || h in sorted
  {
    if sorted != [] {
      assert ([hit] + sorted)[1..] == sorted;
      if sorted[0].depth > hit.depth {
        InsertKeeps(hit, sorted[1..], depth);
        var rest := Insert(hit, sorted[1..]);
        assert ([sorted[0]] + rest)[1..] == rest;
        assert ([hit] + sorted[1..])[1..] == sorted[1..];
        forall k | 0 <= k < |rest| ensures rest[k].depth <= sorted[0].depth {
          assert rest[k] in rest;
        }
        assert sorted == [sorted[0]] + sorted[1..];
      }
    }
  }

  /** The order is by descending depth, and the hits of each depth keep their order: none is lost or added. */
  lemma {:induction false} DeepestFirstSorts(hits: seq<Hit>, depth: nat)
    ensures Descending(DeepestFirst(hits)) && |DeepestFirst(hits)| == |hits|
    ensures AtDepth(DeepestFirst(hits), depth) == AtDepth(hits, depth)
  {
    if hits != [] {
      DeepestFirstSorts(hits[1..], depth);
      InsertKeeps(hits[0], DeepestFirst(hits[1..]), depth);
      AtDepthCons(hits[0], DeepestFirst(hits[1..]), depth);
    }
  }

  lemma AtDepthCons(hit: Hit, hits: seq<Hit>, depth: nat)
    ensures AtDepth([hit] + hits, depth) == if hit.depth == depth then [hit] + AtDepth(hits, depth) else AtDepth(hits, depth)
  {
    assert ([hit] + hits)[1..] == hits;
  }

  function Views(hits: seq<Hit>): seq<nat> {
    if hits == [] then [] else [hits[0].scrollView] + Views(hits[1..])
  }

  function ScrollViewsAt(t: Tree, x: int, y: int): seq<nat> {
    Views(DeepestFirst(Visit(t, x, y, 0)))
  }

  lemma {:induction false} ViewsAt(hits: seq<Hit>, i: nat)
    requires i < |hits|
    ensures |Views(hits)| == |hits| && Views(hits)[i] == hits[i].scrollView
  {
    if i > 0 {
      ViewsAt(hits[1..], i - 1);
    } else if |hits| > 1 {
      ViewsAt(hits[1..], 0);
    }
  }

  /** After any layout, the scroll views at a point are those of an exhaustive scan, deepest first. */
  lemma ScrollViewsAtIsExhaustive(t: Tree, clip: Rect, x: int, y: int)
    requires Clipped(t, clip)
    ensures var views, hits := ScrollViewsAt(t, x, y), DeepestFirst(Scan(t, x, y, 0));
            |views| == |hits| && forall i :: 0 <= i < |hits| ==> views[i] == hits[i].scrollView
  {
    VisitIsScan(t, clip, x, y, 0);
    var hits := DeepestFirst(Scan(t, x, y, 0));
    forall i | 0 <= i < |hits| ensures |Views(hits)| == |hits| && Views(hits)[i] == hits[i].scrollView {
      ViewsAt(hits, i);
    }
  }

  /** The box at the end of the path is the scroll view v, and the point lies in it and in every box on the way. */
  ghost predicate FoundBy(t: Tree, path: seq<nat>, x: int, y: int, v: nat) {
    HasPath(t, path) && BoxAt(t, path).scrollView == Some(v) && OnPath(t, path, x, y)
  }

  lemma {:induction false} HitHasPath(t: Tree, clip: Rect, x: int, y: int, depth: nat, hit: Hit) returns (path: seq<nat>)
    requires Clipped(t, clip) && hit in Scan(t, x, y, depth)
    ensures ContainsPoint(clip, x, y) && hit.depth == depth + |path| && FoundBy(t, path, x, y, hit.scrollView)
    decreases t, 1
  {
    if hit in ScanFrom(t, 0, x, y, depth + 1) {
      path := HitInChildren(t, 0, clip, x, y, depth + 1, hit);
    } else {
      path := [];
      assert hit == Hit(t.scrollView.value, depth) && ContainsPoint(t.clip, x, y);
    }
  }

  lemma {:induction false} HitInChildren(t: Tree, i: nat, clip: Rect, x: int, y: int, depth: nat, hit: Hit) returns (path: seq<nat>)
    requires i <= |t.children| && Clipped(t, clip) && depth > 0 && hit in ScanFrom(t, i, x, y, depth)
    ensures ContainsPoint(clip, x, y) && hit.depth == depth - 1 + |path| && FoundBy(t, path, x, y, hit.scrollView)
    decreases t, 0, |t.children| - i
  {
    if hit in Scan(t.children[i], x, y, depth) {
      var rest := HitHasPath(t.children[i], t.clip, x, y, depth, hit);
      path := [i] + rest;
      assert path[1..] == rest;
      assert ContainsPoint(t.clip, x, y);
    } else {
      path := HitInChildren(t, i + 1, clip, x, y, depth, hit);
    }
  }

  lemma {:induction false} PathIsHit(t: Tree, clip: Rect, path: seq<nat>, x: int, y: int, depth: nat, v: nat)
    requires Clipped(t, clip) && ContainsPoint(clip, x, y) && FoundBy(t, path, x, y, v)
    ensures Hit(v, depth + |path|) in Scan(t, x, y, depth)
    decreases |path|
  {
    assert ContainsPoint(t.clip, x, y);
    if path != [] {
      PathIsHit(t.children[path[0]], t.clip, path[1..], x, y, depth + 1, v);
      InScanFrom(t, 0, path[0], x, y, depth + 1, Hit(v, depth + |path|));
    }
  }

  lemma {:induction false} InScanFrom(t: Tree, i: nat, k: nat, x: int, y: int, depth: nat, hit: Hit)
    requires i <= k < |t.children| && hit in Scan(t.children[k], x, y, depth)
    ensures hit in ScanFrom(t, i, x, y, depth)
    decreases k - i
  {
    if i < k {
      InScanFrom(t, i + 1, k, x, y, depth, hit);
    }
  }

  /**
    What a scan finds, told without any scan: a scroll view is found at a depth exactly when a
    path of that length leads to it through boxes that all contain the point, as does the viewport.
  */
  lemma FoundExactly(t: Tree, clip: Rect, x: int, y: int, v: nat, depth: nat)
    requires Clipped(t, clip)
    ensures Hit(v, depth) in Scan(t, x, y, 0)
            <==> ContainsPoint(clip, x, y) && exists path :: |path| == depth && FoundBy(t, path, x, y, v)
  {
    if Hit(v, depth) in Scan(t, x, y, 0) {
      var path := HitHasPath(t, clip, x, y, 0, Hit(v, depth));
      assert |path| == depth && FoundBy(t, path, x, y, v);
    }
    if ContainsPoint(clip, x, y) && exists path :: |path| == depth && FoundBy(t, path, x, y, v) {
      var path :| |path| == depth && FoundBy(t, path, x, y, v);
      PathIsHit(t, clip, path, x, y, 0, v);
    }
  }

  // ----- The scrollbar -----

  datatype Geometry = Geometry(
    column: int, trackTop: int, trackHeight: nat, thumbTop: int, thumbHeight: nat, maxScrollTop: nat)

  function ThumbHeight(track: nat, contentHeight: nat): nat {
    Max(Min(2, track), if contentHeight == 0 then track else Min(track, Round(track * track, contentHeight)))
  }

  function ThumbOffset(room: nat, maxScrollTop: nat, scrollTop: nat): nat {
    if maxScrollTop == 0 then 0 else Round(scrollTop * room, maxScrollTop)
  }

  function ScrollbarGeometry(rect: Rect, clip: Rect, contentHeight: nat, scrollTop: nat): Option<Geometry> {
    if rect.width == 0 || rect.height == 0 then None
    else
      var track := rect.height;
      var thumb := ThumbHeight(track, contentHeight);
      var maxScrollTop := Max(0, contentHeight - track);
      var offset := ThumbOffset(track - thumb, maxScrollTop, scrollTop);
      var column := rect.x + rect.width - 1;
      if column < clip.x || column >= clip.x + clip.width then None
      else Some(Geometry(column, rect.y, track, rect.y + offset, thumb, maxScrollTop))
  }

  /** The nearest to `p / content`, but at least two where the track has two, and at most the track. */
  ghost predicate IsShare(thumb: int, p: int, track: int, content: int) {
    && (if track < 2 then track else 2) <= thumb <= track
    && (thumb > 2 ==> 2 * content * thumb <= 2 * p + content)
    && (thumb < track ==> 2 * p + content < 2 * content * thumb + 2 * content)
  }

  lemma ClampedShare(p: nat, track: nat, content: nat)
    requires content > 0
    ensures IsShare(Max(Min(2, track), Min(track, Round(p, content))), p, track, content)
  {
    var r := Round(p, content);
    var thumb := Max(Min(2, track), Min(track, r));
    RoundIsNearest(p, content);
    if thumb <= r {
      Monotone(2 * content, thumb, r);
    }
    if r <= thumb {
      Monotone(2 * content, r, thumb);
    }
  }

  /**
    A scrollbar stands in the last column of its view, if that column shows. Its thumb takes the
    share of the track that the view takes of the content, rounded, but at least two rows where
    there are two, and stands as far down as the view is scrolled, rounded.
  */
  lemma ThumbIsProportional(rect: Rect, clip: Rect, contentHeight: nat, scrollTop: nat)
    ensures var column := rect.x + rect.width - 1;
            var shown := rect.width > 0 && rect.height > 0 && clip.x <= column < clip.x + clip.width;
            var geometry := ScrollbarGeometry(rect, clip, contentHeight, scrollTop);
            && (geometry.Some? <==> shown)
            && (geometry.Some? ==>
                  var g, track := geometry.value, rect.height;
                  && g.column == column && g.trackTop == rect.y && g.trackHeight == track
                  && g.maxScrollTop == (if contentHeight > track then contentHeight - track else 0)
                  && (if contentHeight <= track then g.thumbHeight == track
                      else IsShare(g.thumbHeight, track * track, track, contentHeight))
                  && (if contentHeight <= track then g.thumbTop == rect.y
                      else rect.y <= g.thumbTop && g.thumbHeight <= track
                           && IsNearest(g.thumbTop - rect.y, scrollTop * (track - g.thumbHeight), g.maxScrollTop)))
  {
    if rect.height > 0 {
      ThumbHeightExactly(rect.height, contentHeight);
      if contentHeight > rect.height {
        RoundIsNearest(scrollTop * (rect.height - ThumbHeight(rect.height, contentHeight)), contentHeight - rect.height);
      }
    }
  }

  lemma ThumbHeightExactly(track: nat, contentHeight: nat)
    ensures if contentHeight <= track then ThumbHeight(track, contentHeight) == track
            else IsShare(ThumbHeight(track, contentHeight), track * track, track, contentHeight)
  {
    if contentHeight > track {
      ClampedShare(track * track, track, contentHeight);
    } else if contentHeight > 0 {
      Monotone(track, contentHeight, track);
      RoundAtLeast(track * track, contentHeight, track);
    }
  }

  /**
    The thumb lies inside the track, at its top when the view is at the top and at its
    bottom when the view is scrolled to the end; it fills the track when everything fits.
  */
  lemma ThumbInsideTrack(rect: Rect, clip: Rect, contentHeight: nat, scrollTop: nat)
    requires ScrollbarGeometry(rect, clip, contentHeight, scrollTop).Some?
    requires scrollTop <= Max(0, contentHeight - rect.height)
    ensures var g := ScrollbarGeometry(rect, clip, contentHeight, scrollTop).value;
            && 1 <= g.thumbHeight <= g.trackHeight
            && g.trackTop <= g.thumbTop && g.thumbTop + g.thumbHeight <= g.trackTop + g.trackHeight
            && (scrollTop == 0 ==> g.thumbTop == g.trackTop)
            && (scrollTop == g.maxScrollTop > 0 ==> g.thumbTop + g.thumbHeight == g.trackTop + g.trackHeight)
            && (contentHeight <= g.trackHeight ==> g.thumbHeight == g.trackHeight)
  {
    var g := ScrollbarGeometry(rect, clip, contentHeight, scrollTop).value;
    ThumbHeightExactly(rect.height, contentHeight);
    if g.maxScrollTop > 0 {
      OffsetWithinRoom(scrollTop, g.maxScrollTop, g.trackHeight - g.thumbHeight);
    }
  }

  lemma OffsetWithinRoom(scrollTop: nat, maxScrollTop: nat, room: nat)
    requires scrollTop <= maxScrollTop && maxScrollTop > 0
    ensures ThumbOffset(room, maxScrollTop, scrollTop) <= room
    ensures scrollTop == 0 ==> ThumbOffset(room, maxScrollTop, scrollTop) == 0
    ensures scrollTop == maxScrollTop ==> ThumbOffset(room, maxScrollTop, scrollTop) == room
  {
    Monotone(room, scrollTop, maxScrollTop);
    RoundAtMost(scrollTop * room, maxScrollTop, room);
    if scrollTop == 0 {
      RoundAtMost(0, maxScrollTop, 0);
    }
    if scrollTop == maxScrollTop {
      RoundAtLeast(scrollTop * room, maxScrollTop, room);
    }
  }
}
