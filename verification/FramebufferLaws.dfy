/** What the framebuffer holds, byte by byte, and how much its answers and merges say
    (src/framebuffer.rs, src/capture.rs).
 */
module FramebufferLaws {
  import opened Options
  import opened Rects
  import opened Framebuffers
  import opened DamageLog
  import opened Captures

  // ----- the bytes of a frame

  /** A damaged pixel is the frame's four bytes at its place, in the order the layout says: its
      own row of the frame, or the one as far from the other end where the frame is upside
      down. */
  lemma BytesOfADamagedPixel(fb: Fb, f: Frame, damage: seq<Rect>, x: nat, y: nat)
    requires WellSized(fb) && Fits(f, fb.width, fb.height) && x < fb.width && y < fb.height
    requires CoveredBy(damage, x, y)
    ensures var px := Applied(fb, f, damage).pixels[y][x];
            var row := if f.layout.flipped then fb.height - 1 - y else y;
            var at := row * f.stride + 4 * x;
            var bytes := f.layout.bytes;
            && 0 <= at && at + 3 < |f.src|
            && px.b0 == f.src[at + bytes.b0] && px.b1 == f.src[at + bytes.b1]
            && px.b2 == f.src[at + bytes.b2] && px.b3 == f.src[at + bytes.b3]
  {
    var row: nat := if f.layout.flipped then fb.height - 1 - y else y;
    AppliedAt(fb, f, damage, x, y);
    OffsetIsProduct(row, f.stride);
    RowFits(row, fb.height, f.stride, |f.src|);
    var px := Applied(fb, f, damage).pixels[y][x];
    hide Applied, RowOffset, CoveredBy;
    assert px == Straightened(f, fb.width, fb.height, x, y);
  }

  /** A frame whose damage lies outside changes nothing at all, and any other is a new generation
      of a painted framebuffer of the same size. */
  lemma NewGenerationWhen(fb: Fb, f: Frame, damage: seq<Rect>)
    requires WellSized(fb) && Fits(f, fb.width, fb.height)
    ensures var changes := exists x, y :: 0 <= x < fb.width && 0 <= y < fb.height && CoveredBy(damage, x, y);
            var t := Applied(fb, f, damage);
            && (!changes ==> t == fb)
            && (changes ==> t.generation == fb.generation + 1 && t.painted)
            && t.width == fb.width && t.height == fb.height && t.origin == fb.origin
            && t.sizeGeneration == fb.sizeGeneration
  {
    var noted := Noted(damage, fb.width, fb.height);
    NotedInside(damage, fb.width, fb.height);
    if noted != [] {
      var r := noted[0];
      assert CoveredBy(noted, r.x, r.y);
      NotedCovers(damage, fb.width, fb.height, r.x, r.y);
    }
    forall x, y | 0 <= x < fb.width && 0 <= y < fb.height && CoveredBy(damage, x, y) ensures noted != [] {
      NotedCovers(damage, fb.width, fb.height, x, y);
    }
    hide Noted, Painted, Trimmed, Entries, Fits;
  }

  /** So is every pixel once a frame is ready, damage reported or not. */
  lemma BytesOfAReadyFrame(t: Taking, r: Ready, pending: Option<Pending>, x: nat, y: nat)
    requires TakingInv(t) && Honest(t, FrameIs(r, pending)) && x < r.width && y < r.height
    ensures var fb := Taken(t.fb, r, pending);
            && WellSized(fb) && fb.width == r.width && fb.height == r.height
            && var row := if r.frame.layout.flipped then r.height - 1 - y else y;
               var at := row * r.frame.stride + 4 * x;
               var bytes := r.frame.layout.bytes;
               && 0 <= at && at + 3 < |r.frame.src|
               && fb.pixels[y][x] == Pixel(r.frame.src[at + bytes.b0], r.frame.src[at + bytes.b1],
                                           r.frame.src[at + bytes.b2], r.frame.src[at + bytes.b3])
  {
    var row: nat := if r.frame.layout.flipped then r.height - 1 - y else y;
    FrameShows(t, r, pending);
    OffsetIsProduct(row, r.frame.stride);
    RowFits(row, r.height, r.frame.stride, |r.frame.src|);
    var px := Taken(t.fb, r, pending).pixels[y][x];
    hide Taken, RowOffset, TakingInv, Honest;
    assert px == Straightened(r.frame, r.width, r.height, x, y);
  }

  /** A frame of exactly the size a resize asked for is credited to its client, and ends it; any
      other leaves it pending and is the server's own. */
  lemma ResizeIsCredited(fb: Fb, r: Ready, client: nat, width: u16, height: u16)
    requires WellSized(fb) && Fits(r.frame, r.width, r.height)
    ensures var pending := Some(Pending(client, width, height));
            var asked := r.width == width && r.height == height;
            var resized := fb.width != r.width || fb.height != r.height;
            && StillPending(r, pending) == (if asked then None else pending)
            && (resized ==> Taken(fb, r, pending).origin == if asked then Client(client) else Server)
            && (resized ==> Taken(fb, r, None).origin == Server && StillPending(r, None) == None)
            && (!resized ==> Taken(fb, r, pending).origin == fb.origin)
  {
    hide Painted, Noted, Trimmed, Entries;
  }

  // ----- how much a merge says

  /** Two rectangles touch when they share a point, edges and corners counted. */
  lemma TouchingShareAPoint(a: Rect, b: Rect)
    ensures a.Touches(b) <==>
            exists p: int, q: int {:trigger Touched(a, p, q), Touched(b, p, q)} :: Touched(a, p, q) && Touched(b, p, q)
  {
    if a.Touches(b) {
      assert Touched(a, Max(a.x, b.x), Max(a.y, b.y)) && Touched(b, Max(a.x, b.x), Max(a.y, b.y));
    }
  }

  predicate Touched(r: Rect, p: int, q: int) {
    r.x <= p <= r.x + r.width && r.y <= q <= r.y + r.height
  }

  /** Few rectangles that do not touch are left as they are. */
  lemma ApartIsLeft(rects: seq<Rect>, limit: nat)
    requires NoneEmpty(rects) && Apart(rects) && |rects| <= limit
    ensures Merge(rects, limit) == rects
  {
    NoneEmptyIsLeft(rects);
    hide NonEmpty, Apart;
  }

  lemma {:induction false} NoneEmptyIsLeft(rects: seq<Rect>)
    requires NoneEmpty(rects)
    ensures NonEmpty(rects) == rects
  {
    if rects != [] {
      var front, last := rects[..|rects| - 1], rects[|rects| - 1];
      assert forall i :: 0 <= i < |front| ==> front[i] == rects[i];
      NoneEmptyIsLeft(front);
      assert front + [last] == rects;
    }
  }

  /** Each edge of a rectangle is an edge of one of these. */
  predicate EdgesFrom(rects: seq<Rect>, r: Rect) {
    && (exists a :: a in rects && a.x == r.x) && (exists a :: a in rects && a.y == r.y)
    && (exists a :: a in rects && a.Right() == r.Right()) && (exists a :: a in rects && a.Bottom() == r.Bottom())
  }

  predicate AllEdgesFrom(from: seq<Rect>, to: seq<Rect>) {
    forall r :: r in to ==> EdgesFrom(from, r)
  }

  lemma EdgesOfOne(a: seq<Rect>, b: seq<Rect>, r: Rect)
    requires AllEdgesFrom(a, b) && EdgesFrom(b, r)
    ensures EdgesFrom(a, r)
  {
    var i, j :| i in b && i.x == r.x && j in b && j.y == r.y;
    var k, l :| k in b && k.Right() == r.Right() && l in b && l.Bottom() == r.Bottom();
    assert EdgesFrom(a, i) && EdgesFrom(a, j) && EdgesFrom(a, k) && EdgesFrom(a, l);
  }

  lemma EdgesTwice(a: seq<Rect>, b: seq<Rect>, c: seq<Rect>)
    requires AllEdgesFrom(a, b) && AllEdgesFrom(b, c)
    ensures AllEdgesFrom(a, c)
  {
    forall r | r in c ensures EdgesFrom(a, r) {
      EdgesOfOne(a, b, r);
    }
  }

  lemma UnionEdges(rects: seq<Rect>, a: Rect, b: Rect, left: int, top: int, right: int, bottom: int)
    requires Box(left, top, right, bottom) && EdgesFrom(rects, a) && EdgesFrom(rects, b)
    requires a.Within(left, top, right, bottom) && b.Within(left, top, right, bottom)
    ensures EdgesFrom(rects, a.Union(b))
  {
    UnionIsExact(a, b);
  }

  lemma JoinedEdges(rects: seq<Rect>, i: nat, j: nat, left: int, top: int, right: int, bottom: int)
    requires i < j < |rects| && Box(left, top, right, bottom) && AllWithin(rects, left, top, right, bottom)
    ensures AllEdgesFrom(rects, Joined(rects, i, j))
  {
    var joined := Joined(rects, i, j);
    UnionEdges(rects, rects[i], rects[j], left, top, right, bottom);
    hide EdgesFrom, Rect.Union;
    forall r | r in joined ensures EdgesFrom(rects, r) {
      var k :| 0 <= k < |joined| && joined[k] == r;
      if k != i {
        MemberEdges(rects, rects[if k == j then |rects| - 1 else k]);
      }
    }
  }

  lemma {:induction false} MergedEdges(rects: seq<Rect>, left: int, top: int, right: int, bottom: int)
    requires Box(left, top, right, bottom) && AllWithin(rects, left, top, right, bottom) && NoneEmpty(rects)
    ensures AllEdgesFrom(rects, Merged(rects))
    decreases |rects|
  {
    if Apart(rects) {
      hide EdgesFrom;
      forall r | r in rects ensures EdgesFrom(rects, r) {
        MemberEdges(rects, r);
      }
    } else {
      PairExists(rects);
      var i: nat, j: nat :| FirstPair(rects, i, j);
      JoinedMerges(rects, i, j);
      JoinedKeeps(rects, i, j, left, top, right, bottom);
      JoinedEdges(rects, i, j, left, top, right, bottom);
      var joined := Joined(rects, i, j);
      hide AllEdgesFrom, Merged, Apart, FirstPair, Joined;
      MergedEdges(joined, left, top, right, bottom);
      EdgesTwice(rects, joined, Merged(joined));
    }
  }

  lemma {:induction false} BoundsEdges(rects: seq<Rect>, left: int, top: int, right: int, bottom: int)
    requires rects != []
    requires Box(left, top, right, bottom) && AllWithin(rects, left, top, right, bottom) && NoneEmpty(rects)
    ensures EdgesFrom(rects, Bounds(rects))
    decreases |rects|
  {
    if |rects| > 1 {
      var front, last := rects[..|rects| - 1], rects[|rects| - 1];
      BoundsEdges(front, left, top, right, bottom);
      BoundsKeeps(front, left, top, right, bottom);
      assert [Bounds(front)][0].Within(left, top, right, bottom);
      MemberEdges(rects, last);
      MoreEdges(front, rects, Bounds(front));
      hide EdgesFrom, Rect.Union, Rect.Within;
      UnionEdges(rects, Bounds(front), last, left, top, right, bottom);
    } else {
      MemberEdges(rects, rects[0]);
    }
  }

  lemma MoreEdges(some: seq<Rect>, more: seq<Rect>, r: Rect)
    requires EdgesFrom(some, r) && forall a :: a in some ==> a in more
    ensures EdgesFrom(more, r)
  {}

  lemma MemberEdges(rects: seq<Rect>, r: Rect)
    requires r in rects
    ensures EdgesFrom(rects, r)
  {}

  /** A merge draws no edge that was not there: what it returns is no wider than what it was given
      makes it. */
  lemma MergeKeepsToTheEdges(rects: seq<Rect>, limit: nat, left: int, top: int, right: int, bottom: int)
    requires Box(left, top, right, bottom) && AllWithin(rects, left, top, right, bottom)
    ensures AllEdgesFrom(rects, Merge(rects, limit))
  {
    var kept := NonEmpty(rects);
    var merged := Merged(kept);
    NonEmptyKeeps(rects, left, top, right, bottom);
    NonEmptyMembers(rects);
    MembersEdges(rects, kept);
    MergedEdges(kept, left, top, right, bottom);
    MergedKeeps(kept, left, top, right, bottom);
    hide NonEmpty, Merged, EdgesFrom, AllEdgesFrom, Apart, CoveredBy;
    EdgesTwice(rects, kept, merged);
    if |merged| > limit && merged != [] {
      BoundsEdges(merged, left, top, right, bottom);
      EdgesOfOne(rects, merged, Bounds(merged));
      OneEdges(rects, Bounds(merged));
    }
  }

  lemma MembersEdges(rects: seq<Rect>, some: seq<Rect>)
    requires forall r :: r in some ==> r in rects
    ensures AllEdgesFrom(rects, some)
  {
    forall r | r in some ensures EdgesFrom(rects, r) {
      MemberEdges(rects, r);
    }
  }

  lemma OneEdges(rects: seq<Rect>, r: Rect)
    requires EdgesFrom(rects, r)
    ensures AllEdgesFrom(rects, [r])
  {
    hide EdgesFrom;
  }

  // ----- how much an answer says

  /** The next generation is in the log exactly when the front is no newer. */
  lemma NextIsKept(t: Trace, since: nat)
    requires Inv(t) && t.fb.sizeGeneration <= since < t.fb.generation
    ensures HasGeneration(t.fb.log, since + 1) <==> t.fb.log != [] && t.fb.log[0].generation <= since + 1
    ensures t.fb.log != []
  {
    assert HasGeneration(Full(t), since + 1) && Rising(Full(t), t.fb.sizeGeneration, t.fb.generation);
    assert Full(t)[|t.dropped|..] == t.fb.log;
    hide Inv, HasGeneration, Rising;
    assert t.fb.log != [] by { SomeStay(t, since); }
    KeptOfRising(Full(t), |t.dropped|, since + 1, t.fb.sizeGeneration, t.fb.generation);
  }

  lemma SomeStay(t: Trace, since: nat)
    requires Inv(t) && t.fb.sizeGeneration <= since < t.fb.generation
    ensures t.fb.log != []
  {
    assert HasGeneration(Full(t), since + 1);
  }

  /** Of a log that rises, a generation is past the first `d` exactly when they are not all older. */
  lemma KeptOfRising(full: seq<Entry>, d: nat, g: nat, low: nat, high: nat)
    requires d < |full| && Rising(full, low, high) && HasGeneration(full, g)
    ensures HasGeneration(full[d..], g) <==> full[d].generation <= g
  {
    var log := full[d..];
    var i :| 0 <= i < |full| && full[i].generation == g;
    if full[d].generation <= g {
      if i >= d {
        NoteGeneration(log, i - d, g);
      } else {
        assert full[i].generation <= full[d].generation;
        NoteGeneration(log, 0, g);
      }
    } else {
      forall j | 0 <= j < |log| ensures log[j].generation > g {
        assert log[j] == full[d + j];
        assert j > 0 ==> full[d].generation <= full[d + j].generation;
      }
    }
  }

  lemma NoteGeneration(log: seq<Entry>, i: nat, g: nat)
    requires i < |log| && log[i].generation == g
    ensures HasGeneration(log, g)
  {}

  /** Everything is the answer exactly to a session that has sent nothing, or nothing of this
      size, or whose next generation has left the log. */
  lemma AnswerIsEverythingWhen(t: Trace, since: nat)
    requires Inv(t)
    ensures DamageSince(t.fb, since).None? <==>
              || since == 0 || since < t.fb.sizeGeneration
              || (since < t.fb.generation && !HasGeneration(t.fb.log, since + 1))
  {
    if t.fb.sizeGeneration <= since < t.fb.generation {
      NextIsKept(t, since);
    }
    hide Inv, HasGeneration, Merge, RectsAfter;
  }

  /** Nothing is the answer exactly to one that has sent the newest generation. */
  lemma AnswerIsNothingWhen(t: Trace, since: nat)
    requires Inv(t) && since <= t.fb.generation
    ensures DamageSince(t.fb, since) == Some([]) <==> since == t.fb.generation
  {
    if DamageSince(t.fb, since).Some? && since < t.fb.generation {
      AnswerIsEverythingWhen(t, since);
      var i :| 0 <= i < |t.fb.log| && t.fb.log[i].generation == since + 1;
      var rects := RectsAfter(t.fb.log, since);
      KeptInside(t);
      RectsAfterInside(t.fb.log, since, t.fb.width, t.fb.height);
      RectsAfterMembers(t.fb.log, since);
      MergeKeeps(rects, ANSWER_LIMIT, 0, 0, t.fb.width, t.fb.height);
      assert t.fb.log[i].rect in rects;
    }
  }

  lemma {:induction false} RectsAfterMembers(log: seq<Entry>, since: nat)
    ensures forall i :: 0 <= i < |log| && log[i].generation > since ==> log[i].rect in RectsAfter(log, since)
    ensures forall r :: r in RectsAfter(log, since) ==>
              exists i :: 0 <= i < |log| && log[i] == Entry(log[i].generation, r) && log[i].generation > since
  {
    if log != [] {
      var front := log[..|log| - 1];
      RectsAfterMembers(front, since);
      assert forall i :: 0 <= i < |front| ==> front[i] == log[i];
      forall r | r in RectsAfter(log, since)
        ensures exists i :: 0 <= i < |log| && log[i] == Entry(log[i].generation, r) && log[i].generation > since
      {
        if r in RectsAfter(front, since) {
          var i :| 0 <= i < |front| && front[i] == Entry(front[i].generation, r) && front[i].generation > since;
          assert log[i] == Entry(log[i].generation, r);
        } else {
          assert log[|log| - 1] == Entry(log[|log| - 1].generation, r);
        }
      }
    }
  }

  /** An answer of rectangles goes no further than what has been noted since: each of its edges is
      one of a rectangle noted after `since`, and with few that do not touch it is those. */
  lemma AnswerSaysNoMore(t: Trace, since: nat)
    requires Inv(t) && since < t.fb.generation && DamageSince(t.fb, since).Some?
    ensures var (answer, newer) := (DamageSince(t.fb, since).value, RectsAfter(t.fb.log, since));
            && AllEdgesFrom(newer, answer)
            && (Apart(newer) && |newer| <= 32 ==> answer == newer)
  {
    var newer := RectsAfter(t.fb.log, since);
    KeptInside(t);
    RectsAfterInside(t.fb.log, since, t.fb.width, t.fb.height);
    MergeKeepsToTheEdges(newer, ANSWER_LIMIT, 0, 0, t.fb.width, t.fb.height);
    hide AllEdgesFrom, Apart, Inv;
    if Apart(newer) && |newer| <= 32 {
      ApartIsLeft(newer, ANSWER_LIMIT);
    }
  }
}
