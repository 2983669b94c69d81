/** Rectangles of damage and their merging (src/framebuffer.rs). */
module Rects {
  import opened Options

  type u16 = i: int | 0 <= i < 0x1_0000

  /** A rectangle of pixels; its right and bottom edges are not part of it. */
  datatype Rect = Rect(x: u16, y: u16, width: u16, height: u16)
  {
    predicate IsEmpty() { width == 0 || height == 0 }

    function Right(): nat { x + width }

    function Bottom(): nat { y + height }

    predicate Covers(px: int, py: int) {
      x <= px < Right() && y <= py < Bottom()
    }

    /** Within a box of `right` by `bottom` that starts at (`left`, `top`). */
    predicate Within(left: int, top: int, right: int, bottom: int) {
      left <= x && top <= y && Right() <= right && Bottom() <= bottom
    }

    /** The part inside a framebuffer of this size. */
    function Clipped(w: u16, h: u16): (r: Option<Rect>)
      ensures r.Some? ==> r.value.Within(0, 0, w, h) && !r.value.IsEmpty()
      ensures forall px, py :: 0 <= px < w && 0 <= py < h ==>
                (Covers(px, py) <==> r.Some? && r.value.Covers(px, py))
    {
      var right := Min(Right(), w);
      var bottom := Min(Bottom(), h);
      if x >= right || y >= bottom then None
      else Some(Rect(x, y, (right - x) % 0x1_0000, (bottom - y) % 0x1_0000))
    }

    predicate Touches(other: Rect) {
      && x <= other.Right() && other.x <= Right()
      && y <= other.Bottom() && other.y <= Bottom()
    }

    /** The bounding box of the two, its sides cast to `u16`. */
    function Union(other: Rect): Rect {
      var left := Min(x, other.x);
      var top := Min(y, other.y);
      var right := Max(Right(), other.Right());
      var bottom := Max(Bottom(), other.Bottom());
      Rect(left, top, (right - left) % 0x1_0000, (bottom - top) % 0x1_0000)
    }
  }

  function Whole(w: u16, h: u16): Rect {
    Rect(0, 0, w, h)
  }

  predicate CoveredBy(rects: seq<Rect>, px: int, py: int) {
    exists i :: 0 <= i < |rects| && rects[i].Covers(px, py)
  }

  predicate AllWithin(rects: seq<Rect>, left: int, top: int, right: int, bottom: int) {
    forall i :: 0 <= i < |rects| ==> rects[i].Within(left, top, right, bottom)
  }

  predicate NoneEmpty(rects: seq<Rect>) {
    forall i :: 0 <= i < |rects| ==> !rects[i].IsEmpty()
  }

  predicate Apart(rects: seq<Rect>) {
    forall i, j :: 0 <= i < j < |rects| ==> !rects[i].Touches(rects[j])
  }

  function NonEmpty(rects: seq<Rect>): seq<Rect> {
    if rects == [] then []
    else
      var last := rects[|rects| - 1];
      NonEmpty(rects[..|rects| - 1]) + (if last.IsEmpty() then [] else [last])
  }

  /** Whether `k` is the first past `i` that the `i`-th touches. */
  predicate FirstTouched(rects: seq<Rect>, i: nat, k: nat) {
    && i < k < |rects| && rects[i].Touches(rects[k])
    && forall j :: i < j < k ==> !rects[i].Touches(rects[j])
  }

  predicate TouchesNone(rects: seq<Rect>, i: nat) {
    forall j :: i < j < |rects| ==> i < |rects| && !rects[i].Touches(rects[j])
  }

  /** The first pair that touches, in the order the loops look at them. */
  predicate FirstPair(rects: seq<Rect>, i: nat, j: nat) {
    FirstTouched(rects, i, j) && forall k :: 0 <= k < i ==> TouchesNone(rects, k)
  }

  lemma FirstPairUnique(rects: seq<Rect>, i: nat, j: nat, k: nat, l: nat)
    requires FirstPair(rects, i, j) && FirstPair(rects, k, l)
    ensures i == k && j == l
  {
    assert !TouchesNone(rects, i) && !TouchesNone(rects, k);
  }

  /** The `j`-th taken out, the last in its place. */
  function SwapRemove(rects: seq<Rect>, j: nat): (r: seq<Rect>)
    requires j < |rects|
    ensures |r| == |rects| - 1
    ensures forall i :: 0 <= i < |r| ==> r[i] == if i == j then rects[|rects| - 1] else rects[i]
  {
    if j == |rects| - 1 then rects[..j]
    else rects[..j] + [rects[|rects| - 1]] + rects[j + 1..|rects| - 1]
  }

  /** The pair replaced by its bounding box. */
  function Joined(rects: seq<Rect>, i: nat, j: nat): seq<Rect>
    requires i < j < |rects|
  {
    SwapRemove(rects[i := rects[i].Union(rects[j])], j)
  }

  /** Pairs joined until none touch. */
  ghost function Merged(rects: seq<Rect>): seq<Rect>
    decreases |rects|
  {
    if Apart(rects) then rects
    else
      PairExists(rects);
      var i: nat, j: nat :| FirstPair(rects, i, j);
      Merged(Joined(rects, i, j))
  }

  lemma PairExists(rects: seq<Rect>)
    requires !Apart(rects)
    ensures exists i: nat, j: nat :: FirstPair(rects, i, j)
  {
    var i: nat := 0;
    while TouchesNone(rects, i)
      invariant forall k :: 0 <= k < i ==> TouchesNone(rects, k)
      invariant i <= |rects|
      decreases |rects| - i
    {
      if i == |rects| {
        assert Apart(rects) by {
          forall a, b | 0 <= a < b < |rects| ensures !rects[a].Touches(rects[b]) {
            assert TouchesNone(rects, a);
          }
        }
      }
      i := i + 1;
    }
    var some :| i < some < |rects| && rects[i].Touches(rects[some]);
    var j: nat := i + 1;
    while !rects[i].Touches(rects[j])
      invariant i < j <= some
      invariant forall k :: i < k < j ==> !rects[i].Touches(rects[k])
      decreases some - j
    {
      j := j + 1;
    }
    assert FirstPair(rects, i, j);
  }

  function Bounds(rects: seq<Rect>): Rect
    requires rects != []
  {
    if |rects| == 1 then rects[0]
    else Bounds(rects[..|rects| - 1]).Union(rects[|rects| - 1])
  }

  /** What `merge` makes of the rectangles. */
  ghost function Merge(rects: seq<Rect>, limit: nat): seq<Rect> {
    var merged := Merged(NonEmpty(rects));
    if |merged| > limit && merged != [] then [Bounds(merged)] else merged
  }

  method RetainNonEmpty(input: seq<Rect>) returns (rects: seq<Rect>)
    ensures rects == NonEmpty(input)
  {
    rects := [];
    for k := 0 to |input|
      invariant rects == NonEmpty(input[..k])
    {
      assert input[..k + 1][..k] == input[..k];
      if !input[k].IsEmpty() {
        rects := rects + [input[k]];
      }
    }
    assert input[..|input|] == input;
  }

  /** The first two that touch, if any do. */
  method FindPair(rects: seq<Rect>) returns (found: bool, i: nat, j: nat)
    ensures found ==> FirstPair(rects, i, j)
    ensures !found ==> Apart(rects)
  {
    i, j := 0, 0;
    while i < |rects|
      invariant i <= |rects|
      invariant forall k :: 0 <= k < i ==> TouchesNone(rects, k)
    {
      j := i + 1;
      while j < |rects|
        invariant i < j <= |rects|
        invariant forall k :: i < k < j ==> !rects[i].Touches(rects[k])
      {
        if rects[i].Touches(rects[j]) {
          return true, i, j;
        }
        j := j + 1;
      }
      i := i + 1;
    }
    forall a, b | 0 <= a < b < |rects| ensures !rects[a].Touches(rects[b]) {
      assert TouchesNone(rects, a);
    }
    found := false;
  }

  method BoundingBox(rects: seq<Rect>) returns (bounds: Rect)
    requires rects != []
    ensures bounds == Bounds(rects)
  {
    bounds := rects[0];
    for k := 1 to |rects|
      invariant bounds == Bounds(rects[..k])
    {
      assert rects[..k + 1][..k] == rects[..k];
      bounds := bounds.Union(rects[k]);
    }
    assert rects[..|rects|] == rects;
  }

  method MergeRects(input: seq<Rect>, limit: nat) returns (rects: seq<Rect>)
    ensures rects == Merge(input, limit)
  {
    rects := RetainNonEmpty(input);
    while true
      invariant Merged(rects) == Merged(NonEmpty(input))
      decreases |rects|
    {
      var found, i, j := FindPair(rects);
      if !found {
        break;
      }
      JoinedMerges(rects, i, j);
      rects := Joined(rects, i, j);
    }
    if |rects| > limit && rects != [] {
      var bounds := BoundingBox(rects);
      rects := [bounds];
    }
  }

  lemma JoinedMerges(rects: seq<Rect>, i: nat, j: nat)
    requires FirstPair(rects, i, j)
    ensures Merged(Joined(rects, i, j)) == Merged(rects)
  {
    assert rects[i].Touches(rects[j]);
    forall k: nat, l: nat | FirstPair(rects, k, l) ensures k == i && l == j {
      FirstPairUnique(rects, i, j, k, l);
    }
  }

  // ----- what merging keeps

  /** The cast to `u16` truncates nothing exactly when the bounding box is no wider and no
      taller than one framebuffer can be; the union is then the bounding box itself. */
  lemma UnionIsExact(a: Rect, b: Rect)
    ensures var u := a.Union(b);
            var (w, h) := (Max(a.Right(), b.Right()) - Min(a.x, b.x), Max(a.Bottom(), b.Bottom()) - Min(a.y, b.y));
            (w < 0x1_0000 && h < 0x1_0000)
              <==> u.Right() == Max(a.Right(), b.Right()) && u.Bottom() == Max(a.Bottom(), b.Bottom())
  {
    var w := Max(a.Right(), b.Right()) - Min(a.x, b.x);
    var h := Max(a.Bottom(), b.Bottom()) - Min(a.y, b.y);
    assert w >= 0 && h >= 0;
    assert w % 0x1_0000 == w <==> w < 0x1_0000;
    assert h % 0x1_0000 == h <==> h < 0x1_0000;
  }

  /** A box a framebuffer can hold. */
  predicate Box(left: int, top: int, right: int, bottom: int) {
    0 <= left <= right < 0x1_0000 && 0 <= top <= bottom < 0x1_0000
  }

  lemma UnionWithin(a: Rect, b: Rect, left: int, top: int, right: int, bottom: int)
    requires Box(left, top, right, bottom)
    requires a.Within(left, top, right, bottom) && b.Within(left, top, right, bottom)
    ensures a.Union(b).Within(left, top, right, bottom)
    ensures forall px, py :: a.Covers(px, py) || b.Covers(px, py) ==> a.Union(b).Covers(px, py)
    ensures !a.IsEmpty() ==> !a.Union(b).IsEmpty()
  {
    UnionIsExact(a, b);
  }

  /** What a list of rectangles and one made from it by merging have to do with each other. */
  ghost predicate Kept(from: seq<Rect>, to: seq<Rect>, left: int, top: int, right: int, bottom: int) {
    && AllWithin(to, left, top, right, bottom)
    && NoneEmpty(to)
    && (forall px, py :: CoveredBy(from, px, py) ==> CoveredBy(to, px, py))
    && (from != [] <==> to != [])
  }

  lemma JoinedKeeps(rects: seq<Rect>, i: nat, j: nat, left: int, top: int, right: int, bottom: int)
    requires i < j < |rects|
    requires Box(left, top, right, bottom) && AllWithin(rects, left, top, right, bottom) && NoneEmpty(rects)
    ensures Kept(rects, Joined(rects, i, j), left, top, right, bottom)
  {
    var to := Joined(rects, i, j);
    UnionWithin(rects[i], rects[j], left, top, right, bottom);
    forall px, py | CoveredBy(rects, px, py) ensures CoveredBy(to, px, py) {
      var k :| 0 <= k < |rects| && rects[k].Covers(px, py);
      if k == i || k == j {
        assert to[i].Covers(px, py);
      } else if k == |rects| - 1 {
        assert to[j].Covers(px, py);
      } else {
        assert to[k].Covers(px, py);
      }
    }
  }

  lemma {:induction false} MergedKeeps(rects: seq<Rect>, left: int, top: int, right: int, bottom: int)
    requires Box(left, top, right, bottom) && AllWithin(rects, left, top, right, bottom) && NoneEmpty(rects)
    ensures Kept(rects, Merged(rects), left, top, right, bottom) && Apart(Merged(rects))
    decreases |rects|
  {
    if Apart(rects) {
    } else {
      PairExists(rects);
      var i: nat, j: nat :| FirstPair(rects, i, j);
      JoinedMerges(rects, i, j);
      JoinedKeeps(rects, i, j, left, top, right, bottom);
      MergedKeeps(Joined(rects, i, j), left, top, right, bottom);
    }
  }

  lemma {:induction false} BoundsKeeps(rects: seq<Rect>, left: int, top: int, right: int, bottom: int)
    requires rects != []
    requires Box(left, top, right, bottom) && AllWithin(rects, left, top, right, bottom) && NoneEmpty(rects)
    ensures Kept(rects, [Bounds(rects)], left, top, right, bottom)
    decreases |rects|
  {
    var one := [Bounds(rects)];
    if |rects| == 1 {
      assert one == rects;
    } else {
      var front := rects[..|rects| - 1];
      BoundsKeeps(front, left, top, right, bottom);
      assert [Bounds(front)][0].Within(left, top, right, bottom) && ![Bounds(front)][0].IsEmpty();
      UnionWithin(Bounds(front), rects[|rects| - 1], left, top, right, bottom);
      forall px, py | CoveredBy(rects, px, py) ensures CoveredBy(one, px, py) {
        var k :| 0 <= k < |rects| && rects[k].Covers(px, py);
        if k < |front| {
          assert front[k].Covers(px, py);
          assert CoveredBy(front, px, py);
          assert CoveredBy([Bounds(front)], px, py);
        }
        assert one[0].Covers(px, py);
      }
    }
  }

  lemma {:induction false} NonEmptyMembers(rects: seq<Rect>)
    ensures forall r :: r in NonEmpty(rects) ==> r in rects && !r.IsEmpty()
  {
    if rects != [] {
      var front, last := rects[..|rects| - 1], rects[|rects| - 1];
      NonEmptyMembers(front);
      assert forall r :: r in NonEmpty(rects) ==> r in NonEmpty(front) || (r == last && !last.IsEmpty());
    }
  }

  lemma NonEmptyKeeps(rects: seq<Rect>, left: int, top: int, right: int, bottom: int)
    requires AllWithin(rects, left, top, right, bottom)
    ensures AllWithin(NonEmpty(rects), left, top, right, bottom) && NoneEmpty(NonEmpty(rects))
  {
    NonEmptyMembers(rects);
    hide NonEmpty, Rect.Within, Rect.IsEmpty;
    var kept := NonEmpty(rects);
    forall i | 0 <= i < |kept| ensures kept[i].Within(left, top, right, bottom) && !kept[i].IsEmpty() {
      assert kept[i] in rects;
    }
  }

  lemma {:induction false} NonEmptyCovers(rects: seq<Rect>, px: int, py: int)
    ensures CoveredBy(NonEmpty(rects), px, py) <==> CoveredBy(rects, px, py)
  {
    if rects == [] {
    } else {
      var front, last := rects[..|rects| - 1], rects[|rects| - 1];
      NonEmptyCovers(front, px, py);
      assert front + [last] == rects;
      CoveredByMore(front, last, px, py);
      CoveredByMore(NonEmpty(front), last, px, py);
      assert last.IsEmpty() ==> NonEmpty(rects) == NonEmpty(front) && !last.Covers(px, py);
    }
  }

  lemma CoveredByMore(rects: seq<Rect>, r: Rect, x: int, y: int)
    ensures CoveredBy(rects + [r], x, y) <==> CoveredBy(rects, x, y) || r.Covers(x, y)
    ensures CoveredBy([r], x, y) <==> r.Covers(x, y)
  {
    var more := rects + [r];
    if CoveredBy(rects, x, y) {
      var i :| 0 <= i < |rects| && rects[i].Covers(x, y);
      assert more[i].Covers(x, y);
    }
    if r.Covers(x, y) {
      assert more[|rects|].Covers(x, y) && [r][0].Covers(x, y);
    }
  }

  /** Merging covers every pixel it is given, stays inside whatever box holds its input,
      and returns rectangles no two of which touch, or one; never more than the limit. */
  lemma MergeKeeps(rects: seq<Rect>, limit: nat, left: int, top: int, right: int, bottom: int)
    requires Box(left, top, right, bottom) && AllWithin(rects, left, top, right, bottom)
    ensures var out := Merge(rects, limit);
            && AllWithin(out, left, top, right, bottom) && NoneEmpty(out)
            && (forall px, py :: CoveredBy(rects, px, py) ==> CoveredBy(out, px, py))
            && Apart(out)
            && |out| <= Max(limit, 1)
            && (out == [] <==> forall i :: 0 <= i < |rects| ==> rects[i].IsEmpty())
  {
    var kept := NonEmpty(rects);
    NonEmptyKeeps(rects, left, top, right, bottom);
    forall px, py | CoveredBy(rects, px, py) ensures CoveredBy(kept, px, py) {
      NonEmptyCovers(rects, px, py);
    }
    MergedKeeps(kept, left, top, right, bottom);
    if |Merged(kept)| > limit {
      BoundsKeeps(Merged(kept), left, top, right, bottom);
    }
    NonEmptyNone(rects);
  }

  lemma {:induction false} NonEmptyNone(rects: seq<Rect>)
    ensures NonEmpty(rects) == [] <==> forall i :: 0 <= i < |rects| ==> rects[i].IsEmpty()
  {
    if rects == [] {
    } else {
      var front := rects[..|rects| - 1];
      NonEmptyNone(front);
      assert forall i :: 0 <= i < |front| ==> front[i] == rects[i];
    }
  }
}
