/** A desk's capture: how a frame that is ready becomes the framebuffer's picture
    (src/capture.rs).
 */
module Captures {
  import opened Options
  import opened Rects
  import opened Framebuffers

  /** A frame with its own size and the damage the compositor reported with it. */
  datatype Ready = Ready(width: u16, height: u16, frame: Frame, damage: seq<Rect>)

  /** What of a frame to copy in: what was reported, or all of it where there is nothing
      for damage to be measured against, or nothing was reported. */
  function DamageFor(reported: seq<Rect>, painted: bool, w: u16, h: u16): seq<Rect> {
    if painted && reported != [] then reported else [Whole(w, h)]
  }

  /** A resize accepted for a client, that the next frame of its size is. */
  datatype Pending = Pending(client: nat, width: u16, height: u16)

  function OriginOf(pending: Option<Pending>, w: u16, h: u16): ResizeOrigin {
    if pending.Some? && (pending.value.width, pending.value.height) == (w, h)
    then Client(pending.value.client) else Server
  }

  /** The framebuffer at the frame's size. */
  function SizedTo(fb: Fb, w: u16, h: u16, origin: ResizeOrigin): Fb {
    if (fb.width, fb.height) != (w, h) then Resized(fb, w, h, origin) else fb
  }

  /** The framebuffer once a frame is ready. */
  function Taken(fb: Fb, r: Ready, pending: Option<Pending>): Fb
    requires WellSized(fb) && Fits(r.frame, r.width, r.height)
  {
    var sized := SizedTo(fb, r.width, r.height, OriginOf(pending, r.width, r.height));
    Applied(sized, r.frame, DamageFor(r.damage, sized.painted, r.width, r.height))
  }

  /** The resize still pending once a frame is ready. */
  function StillPending(r: Ready, pending: Option<Pending>): Option<Pending> {
    if OriginOf(pending, r.width, r.height).Client? then None else pending
  }

  /** Whether a frame of this size is asked for outright rather than when something changes. */
  predicate AskedWhole(fb: Fb, w: u16, h: u16) {
    !fb.painted || (fb.width, fb.height) != (w, h)
  }

  class Capture {
    var pendingResize: Option<Pending>

    constructor ()
      ensures pendingResize == None
    {
      pendingResize := None;
    }

    method FrameReady(fb: Framebuffer, r: Ready)
      requires fb.Valid() && Fits(r.frame, r.width, r.height)
      modifies this, fb
      ensures fb.Valid() && fb.Model() == Taken(old(fb.Model()), r, old(pendingResize))
      ensures pendingResize == StillPending(r, old(pendingResize))
    {
      hide Applied, Fits;
      var origin := Server;
      if pendingResize.Some? && (pendingResize.value.width, pendingResize.value.height) == (r.width, r.height) {
        origin := Client(pendingResize.value.client);
        pendingResize := None;
      }
      if (fb.width, fb.height) != (r.width, r.height) {
        fb.Resize(r.width, r.height, origin);
      }
      var damage := [Whole(r.width, r.height)];
      if fb.painted && r.damage != [] {
        damage := r.damage;
      }
      fb.Apply(r.frame, damage);
    }
  }

  // ----- the framebuffer is the frame

  /** Every pixel is the frame's, the right way up and in the framebuffer's byte order. */
  ghost predicate Shows(fb: Fb, r: Ready) {
    && WellSized(fb) && fb.width == r.width && fb.height == r.height && Fits(r.frame, r.width, r.height)
    && forall x, y :: 0 <= x < fb.width && 0 <= y < fb.height ==>
         fb.pixels[y][x] == Straightened(r.frame, r.width, r.height, x, y)
  }

  /** The damage reported covers what differs from an earlier frame of the same size. */
  ghost predicate Reports(r: Ready, before: Ready)
    requires Fits(r.frame, r.width, r.height) && Fits(before.frame, before.width, before.height)
    requires before.width == r.width && before.height == r.height
  {
    forall x, y :: 0 <= x < r.width && 0 <= y < r.height ==>
      || Straightened(before.frame, r.width, r.height, x, y) == Straightened(r.frame, r.width, r.height, x, y)
      || CoveredBy(r.damage, x, y)
  }

  /** A framebuffer and the last frame it took since it took its size. */
  datatype Taking = Taking(fb: Fb, last: Option<Ready>)

  /** What a compositor does: a frame is ready, or the desk is pointed at another output. */
  datatype Step =
    | FrameIs(ready: Ready, pending: Option<Pending>)
    | Switched(width: u16, height: u16)

  /** A compositor tells the truth: a frame of a size it was asked for on a change reports
      what changed since the frame before. Of one asked for outright nothing is assumed. */
  ghost predicate Honest(t: Taking, s: Step) {
    s.FrameIs? ==>
      && Fits(s.ready.frame, s.ready.width, s.ready.height)
      && (!AskedWhole(t.fb, s.ready.width, s.ready.height) && t.last.Some?
            && t.last.value.width == s.ready.width && t.last.value.height == s.ready.height
            && Fits(t.last.value.frame, t.last.value.width, t.last.value.height) ==>
          Reports(s.ready, t.last.value))
  }

  ghost function Next(t: Taking, s: Step): Taking
    requires WellSized(t.fb) && Honest(t, s)
  {
    match s
    case FrameIs(ready, pending) => Taking(Taken(t.fb, ready, pending), Some(ready))
    case Switched(w, h) => Taking(Resized(t.fb, w, h, Server), None)
  }

  /** Once painted, the framebuffer is the last frame: no blank pixel, nor any of an output
      left or a size gone, survives. A picture of no pixels is never painted. */
  ghost predicate TakingInv(t: Taking) {
    && WellSized(t.fb)
    && (t.fb.painted ==> t.last.Some? && Shows(t.fb, t.last.value))
  }

  lemma NextInv(t: Taking, s: Step)
    requires TakingInv(t) && Honest(t, s)
    ensures TakingInv(Next(t, s))
    ensures s.FrameIs? ==> Shows(Next(t, s).fb, s.ready)
    ensures s.FrameIs? && s.ready.width > 0 && s.ready.height > 0 ==> Next(t, s).fb.painted
  {
    if s.FrameIs? {
      FrameShows(t, s.ready, s.pending);
    }
  }

  lemma FrameShows(t: Taking, r: Ready, pending: Option<Pending>)
    requires TakingInv(t) && Honest(t, FrameIs(r, pending))
    ensures Shows(Taken(t.fb, r, pending), r)
    ensures r.width > 0 && r.height > 0 ==> Taken(t.fb, r, pending).painted
  {
    var sized := SizedTo(t.fb, r.width, r.height, OriginOf(pending, r.width, r.height));
    var damage := DamageFor(r.damage, sized.painted, r.width, r.height);
    var fb := Taken(t.fb, r, pending);
    assert WellSized(sized);
    hide Straightened, Painted;
    forall x, y | 0 <= x < fb.width && 0 <= y < fb.height
      ensures fb.pixels[y][x] == Straightened(r.frame, r.width, r.height, x, y)
    {
      AppliedAt(sized, r.frame, damage, x, y);
      if damage == [Whole(r.width, r.height)] {
        assert damage[0].Covers(x, y);
      }
    }
    if damage == [Whole(r.width, r.height)] && r.width > 0 && r.height > 0 {
      WholeIsNoted(r.width, r.height);
    }
  }

  lemma WholeIsNoted(w: u16, h: u16)
    requires w > 0 && h > 0
    ensures Noted([Whole(w, h)], w, h) != []
  {
    assert Whole(w, h).Clipped(w, h) == Some(Whole(w, h));
    assert [Whole(w, h)][..0] == [];
  }

  ghost predicate CanTake(t: Taking, steps: seq<Step>)
    decreases |steps|
  {
    steps == [] || (WellSized(t.fb) && Honest(t, steps[0]) && CanTake(Next(t, steps[0]), steps[1..]))
  }

  ghost function Took(t: Taking, steps: seq<Step>): Taking
    requires CanTake(t, steps)
    decreases |steps|
  {
    if steps == [] then t else Took(Next(t, steps[0]), steps[1..])
  }

  /** Whatever outputs the desk is pointed at and whatever frames come, a painted framebuffer
      is the last frame. */
  lemma {:induction false} EveryFrameIsShown(t: Taking, steps: seq<Step>)
    requires TakingInv(t) && CanTake(t, steps)
    ensures var u := Took(t, steps); u.fb.painted ==> u.last.Some? && Shows(u.fb, u.last.value)
    decreases |steps|
  {
    hide Shows, Next;
    if steps == [] {
    } else {
      NextInv(t, steps[0]);
      EveryFrameIsShown(Next(t, steps[0]), steps[1..]);
    }
  }
}
