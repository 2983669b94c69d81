/** A session and its client, over every interleaving of captures, resizes, requests and
    fences (src/session.rs, src/framebuffer.rs).
 */
module UpdateLoop {
  import opened Options
  import opened Rects
  import opened Framebuffers
  import opened DamageLog
  import opened Sessions

  /** What the client draws on. */
  datatype Canvas = Canvas(width: u16, height: u16, rows: Rows)

  /** A rectangle's own pixels drawn over a picture. */
  function Drawn(rows: Rows, p: Piece, w: u16, h: u16): (r: Rows)
    requires Sized(rows, w, h) && p.rect.Within(0, 0, w, h) && Sized(p.rows, p.rect.width, p.rect.height)
    ensures Sized(r, w, h)
  {
    seq(h, y requires 0 <= y < h =>
      seq(w, x requires 0 <= x < w =>
        if p.rect.Covers(x, y) then p.rows[y - p.rect.y][x - p.rect.x] else rows[y][x]))
  }

  predicate Drawable(pieces: seq<Piece>, w: u16, h: u16) {
    forall i :: 0 <= i < |pieces| ==>
      pieces[i].rect.Within(0, 0, w, h) && Sized(pieces[i].rows, pieces[i].rect.width, pieces[i].rect.height)
  }

  function DrawnAll(rows: Rows, pieces: seq<Piece>, w: u16, h: u16): (r: Rows)
    requires Sized(rows, w, h) && Drawable(pieces, w, h)
    ensures Sized(r, w, h)
    decreases |pieces|
  {
    if pieces == [] then rows
    else Drawn(DrawnAll(rows, pieces[..|pieces| - 1], w, h), pieces[|pieces| - 1], w, h)
  }

  predicate WellCanvas(c: Canvas) {
    Sized(c.rows, c.width, c.height)
  }

  /** The canvas once a message is read. One the client could not draw leaves it as it is. */
  function Received(c: Canvas, m: Message): (r: Canvas)
    requires WellCanvas(c)
    ensures WellCanvas(r)
  {
    match m
    case Announcement => c
    case DesktopSize(w, h) => Canvas(w, h, Blank(w, h))
    case Update(pieces, _) =>
      if Drawable(pieces, c.width, c.height)
      then c.(rows := DrawnAll(c.rows, pieces, c.width, c.height)) else c
  }

  function ReceivedAll(c: Canvas, ms: seq<Message>): (r: Canvas)
    requires WellCanvas(c)
    ensures WellCanvas(r)
    decreases |ms|
  {
    if ms == [] then c else Received(ReceivedAll(c, ms[..|ms| - 1]), ms[|ms| - 1])
  }

  function Fences(ms: seq<Message>): nat {
    if ms == [] then 0
    else Fences(ms[..|ms| - 1]) + (if ms[|ms| - 1].Update? && ms[|ms| - 1].fenced then 1 else 0)
  }

  predicate HasUpdate(ms: seq<Message>) {
    exists i :: 0 <= i < |ms| && ms[i].Update?
  }

  /** The framebuffer and its record, the session, what the client shows, and the fences it
      has not answered. */
  datatype System = System(trace: Trace, session: Session, canvas: Canvas, unanswered: nat)

  datatype Event =
    | Happens(change: Change)
    | Asks(incremental: bool)
    | Continues(on: bool)
    | Lists(fence: bool, eds: bool, desktopSize: bool)
    | Owes(cursor: bool, eds: bool, audio: bool)
    | Answers
    | Pumps

  /** The session is about to be told of less than may have changed: its answer leaves out a
      pixel that a dropped entry newer than what its client has covers. */
  ghost predicate Misled(sys: System) {
    var (s, fb) := (sys.session, sys.trace.fb);
    && !Waits(s) && fb.painted
    && DamageFor(s, fb).Some? && !NothingLost(sys.trace, s.seen)
  }

  /** The session is about to send everything. */
  ghost predicate FullLook(sys: System) {
    !Waits(sys.session) && sys.trace.fb.painted && DamageFor(sys.session, sys.trace.fb).None?
  }

  /** What can happen next: a capture fits the framebuffer, and a client answers a fence it
      was sent. */
  predicate Enabled(sys: System, e: Event) {
    match e
    case Happens(change) => Accepts(sys.trace.fb, change)
    case Answers => sys.unanswered > 0
    case _ => true
  }

  ghost function Next(sys: System, e: Event): System
    requires Enabled(sys, e) && Readable(sys.trace.fb) && WellCanvas(sys.canvas)
  {
    var s := sys.session;
    match e
    case Happens(change) => sys.(trace := Traced(sys.trace, change))
    case Asks(incremental) => sys.(session := Requested(s, incremental))
    case Continues(on) => sys.(session := s.(continuous := on))
    case Lists(fence, eds, desktopSize) =>
      sys.(session := s.(fenceSupported := fence, edsSupported := eds,
                         desktopSizeSupported := desktopSize, announceCursor := true))
    case Owes(cursor, eds, audio) =>
      sys.(session := s.(announceCursor := s.announceCursor || cursor,
                         announceEds := s.announceEds || eds,
                         announceAudio := s.announceAudio || audio))
    case Answers => sys.(session := Echoed(s), unanswered := sys.unanswered - 1)
    case Pumps =>
      var (after, sent) := Pumped(s, sys.trace.fb);
      System(sys.trace, after, ReceivedAll(sys.canvas, sent), sys.unanswered + Fences(sent))
  }

  /** What every reachable system satisfies, misled or not. */
  ghost predicate Loose(sys: System) {
    var (t, s, c) := (sys.trace, sys.session, sys.canvas);
    && DamageLog.Inv(t)
    && WellCanvas(c)
    && s.seen <= t.fb.generation
    && (!s.closed ==> c.width == s.knownWidth && c.height == s.knownHeight)
    && sys.unanswered == (if s.fenceOutstanding then 1 else 0)
  }

  /** The canvas is the framebuffer as it was at the generation the session says the client
      has. */
  ghost predicate InStep(sys: System) {
    var (t, s, c) := (sys.trace, sys.session, sys.canvas);
    !s.closed && s.seen != 0 ==> s.seen in t.past && c.rows == t.past[s.seen]
  }

  ghost predicate SysInv(sys: System) {
    Loose(sys) && InStep(sys)
  }

  lemma InvReadable(t: Trace)
    requires DamageLog.Inv(t)
    ensures Readable(t.fb)
  {
    KeptInside(t);
  }

  // ----- what the client draws

  lemma CutDrawable(rows: Rows, rects: seq<Rect>, w: u16, h: u16)
    requires Sized(rows, w, h) && AllWithin(rects, 0, 0, w, h)
    ensures Drawable(CutAll(rows, rects, w, h), w, h)
  {}

  lemma OneCutDrawn(canvas: Rows, rows: Rows, r: Rect, w: u16, h: u16, x: nat, y: nat)
    requires Sized(canvas, w, h) && Sized(rows, w, h) && r.Within(0, 0, w, h) && x < w && y < h
    ensures Sized(Cut(rows, r, w, h).rows, r.width, r.height) && Cut(rows, r, w, h).rect == r
    ensures Drawn(canvas, Cut(rows, r, w, h), w, h)[y][x] == if r.Covers(x, y) then rows[y][x] else canvas[y][x]
  {}

  /** Pieces cut from a picture and drawn on another: the first one's pixels under the
      rectangles, the other's everywhere else. */
  lemma {:induction false} CutDrawn(canvas: Rows, rows: Rows, rects: seq<Rect>, w: u16, h: u16, x: nat, y: nat)
    requires Sized(canvas, w, h) && Sized(rows, w, h) && AllWithin(rects, 0, 0, w, h)
    requires x < w && y < h
    ensures Drawable(CutAll(rows, rects, w, h), w, h)
    ensures DrawnAll(canvas, CutAll(rows, rects, w, h), w, h)[y][x]
         == if CoveredBy(rects, x, y) then rows[y][x] else canvas[y][x]
    decreases |rects|
  {
    CutDrawable(rows, rects, w, h);
    if rects == [] {
    } else {
      var front, last := rects[..|rects| - 1], rects[|rects| - 1];
      assert CutAll(rows, rects, w, h)[..|rects| - 1] == CutAll(rows, front, w, h);
      CutDrawn(canvas, rows, front, w, h, x, y);
      OneCutDrawn(DrawnAll(canvas, CutAll(rows, front, w, h), w, h), rows, last, w, h, x, y);
      hide Drawn, Cut, Drawable;
      assert front + [last] == rects;
      CoveredByMore(front, last, x, y);
    }
  }

  /** Drawn where it changed, a picture is the framebuffer. */
  lemma DrawnIsFramebuffer(canvas: Rows, fb: Fb, rects: seq<Rect>)
    requires WellSized(fb) && Sized(canvas, fb.width, fb.height)
    requires AllWithin(rects, 0, 0, fb.width, fb.height) && Unchanged(canvas, fb, rects)
    ensures Drawable(CutAll(fb.pixels, rects, fb.width, fb.height), fb.width, fb.height)
    ensures DrawnAll(canvas, CutAll(fb.pixels, rects, fb.width, fb.height), fb.width, fb.height) == fb.pixels
  {
    CutDrawable(fb.pixels, rects, fb.width, fb.height);
    hide CutAll, Drawable, DrawnAll;
    var drawn := DrawnAll(canvas, CutAll(fb.pixels, rects, fb.width, fb.height), fb.width, fb.height);
    forall y | 0 <= y < fb.height ensures drawn[y] == fb.pixels[y] {
      forall x | 0 <= x < fb.width ensures drawn[y][x] == fb.pixels[y][x] {
        CutDrawn(canvas, fb.pixels, rects, fb.width, fb.height, x, y);
      }
    }
  }

  lemma WholeCovers(w: u16, h: u16, canvas: Rows, fb: Fb)
    requires WellSized(fb) && fb.width == w && fb.height == h && Sized(canvas, w, h)
    ensures Unchanged(canvas, fb, [Whole(w, h)])
  {
    forall x, y | 0 <= x < w && 0 <= y < h ensures CoveredBy([Whole(w, h)], x, y) {
      assert [Whole(w, h)][0].Covers(x, y);
    }
  }

  lemma {:induction false} AnnouncementsDrawNothing(c: Canvas, ms: seq<Message>)
    requires WellCanvas(c) && forall i :: 0 <= i < |ms| ==> ms[i].Announcement?
    ensures ReceivedAll(c, ms) == c && Fences(ms) == 0
    decreases |ms|
  {
    if ms == [] {
    } else {
      AnnouncementsDrawNothing(c, ms[..|ms| - 1]);
    }
  }

  lemma {:induction false} ReceivedSum(c: Canvas, a: seq<Message>, b: seq<Message>)
    requires WellCanvas(c)
    ensures ReceivedAll(c, a + b) == ReceivedAll(ReceivedAll(c, a), b)
    ensures Fences(a + b) == Fences(a) + Fences(b)
    decreases |b|
  {
    if b == [] {
      assert a + b == a;
    } else {
      assert (a + b)[..|a + b| - 1] == a + b[..|b| - 1];
      ReceivedSum(c, a, b[..|b| - 1]);
    }
  }

  /** What the client's canvas is once it is told of a new size, or is not. */
  function SizedFor(c: Canvas, w: u16, h: u16): (r: Canvas)
    requires WellCanvas(c)
    ensures WellCanvas(r) && r.width == w && r.height == h
  {
    if (c.width, c.height) == (w, h) then c else Canvas(w, h, Blank(w, h))
  }

  /** Outside the rectangles the session would send, the client's canvas is the framebuffer. */
  ghost predicate TellsAll(sys: System)
    requires Readable(sys.trace.fb) && WellCanvas(sys.canvas)
  {
    var fb := sys.trace.fb;
    Unchanged(SizedFor(sys.canvas, fb.width, fb.height).rows, fb, RectsFor(sys.session, fb))
  }

  lemma FullTellsAll(sys: System)
    requires Loose(sys) && Readable(sys.trace.fb) && DamageFor(sys.session, sys.trace.fb).None?
    ensures TellsAll(sys)
  {
    var fb := sys.trace.fb;
    WholeCovers(fb.width, fb.height, SizedFor(sys.canvas, fb.width, fb.height).rows, fb);
  }

  lemma NotMisledTellsAll(sys: System)
    requires SysInv(sys) && Readable(sys.trace.fb) && !Waits(sys.session) && sys.trace.fb.painted && !Misled(sys)
    ensures TellsAll(sys)
  {
    if DamageFor(sys.session, sys.trace.fb).None? {
      FullTellsAll(sys);
    } else {
      DamageIsSound(sys.trace, sys.session.seen);
    }
  }

  lemma One(c: Canvas, m: Message)
    requires WellCanvas(c)
    ensures ReceivedAll(c, [m]) == Received(c, m)
    ensures Fences([m]) == (if m.Update? && m.fenced then 1 else 0)
  {
    assert [m][..0] == [];
  }

  /** The size told, where it is new, and the pieces drawn. */
  lemma DeliveredDraws(c: Canvas, s: Session, pieces: seq<Piece>, w: u16, h: u16, generation: nat)
    requires WellCanvas(c) && Knows(s, c.width, c.height) && Drawable(pieces, w, h) && !s.closed
    ensures var (after, sent) := Delivered(s, pieces, w, h, generation);
            !after.closed ==>
              && ReceivedAll(c, sent) == Canvas(w, h, DrawnAll(SizedFor(c, w, h).rows, pieces, w, h))
              && Fences(sent) == (if s.fenceSupported then 1 else 0)
              && sent != [] && sent[|sent| - 1].Update?
  {
    hide Blank, Drawable, DrawnAll;
    var update := Update(pieces, s.fenceSupported);
    One(SizedFor(c, w, h), update);
    if Knows(s, w, h) {
      assert [] + [update] == [update];
    } else {
      One(c, DesktopSize(w, h));
      ReceivedSum(c, [DesktopSize(w, h)], [update]);
    }
  }

  /** An update draws the rectangles it carries, on a canvas of the framebuffer's size. */
  lemma UpdateDraws(sys: System)
    requires Loose(sys) && Readable(sys.trace.fb) && !sys.session.closed
    ensures var fb := sys.trace.fb;
            var pieces := CutAll(fb.pixels, RectsFor(sys.session, fb), fb.width, fb.height);
            var (after, sent) := Updated(Announced(sys.session), fb);
            && Drawable(pieces, fb.width, fb.height)
            && (!after.closed ==>
                  && ReceivedAll(sys.canvas, sent)
                       == Canvas(fb.width, fb.height,
                                 DrawnAll(SizedFor(sys.canvas, fb.width, fb.height).rows, pieces, fb.width, fb.height))
                  && Fences(sent) == (if sys.session.fenceSupported then 1 else 0)
                  && sent != [] && sent[|sent| - 1].Update?)
  {
    var (s, fb) := (sys.session, sys.trace.fb);
    var rects := RectsFor(s, fb);
    CutDrawable(fb.pixels, rects, fb.width, fb.height);
    hide Drawable, CutAll, DrawnAll;
    var pieces := CutAll(fb.pixels, rects, fb.width, fb.height);
    DeliveredDraws(sys.canvas, Announced(s), pieces, fb.width, fb.height, fb.generation);
    assert RectsFor(Announced(s), fb) == rects;
  }

  /** One that tells all leaves the client with the framebuffer as it is. */
  lemma UpdateShowsFramebuffer(sys: System)
    requires Loose(sys) && Readable(sys.trace.fb) && !sys.session.closed && TellsAll(sys)
    ensures var fb := sys.trace.fb;
            var (after, sent) := Updated(Announced(sys.session), fb);
            !after.closed ==> ReceivedAll(sys.canvas, sent) == Canvas(fb.width, fb.height, fb.pixels)
  {
    var (s, fb, c) := (sys.session, sys.trace.fb, sys.canvas);
    UpdateDraws(sys);
    DrawnIsFramebuffer(SizedFor(c, fb.width, fb.height).rows, fb, RectsFor(s, fb));
    hide Drawable, CutAll, DrawnAll, Updated, ReceivedAll, TellsAll, DamageLog.Inv;
  }

  // ----- every look

  /** There is nothing to send, or nobody to send it to. */
  ghost predicate Quiet(sys: System) {
    Waits(sys.session) || !sys.trace.fb.painted || DamageFor(sys.session, sys.trace.fb) == Some([])
  }

  /** A look keeps everything but the canvas's being in step, whatever it is told of; and one
      that tells all puts it in step. */
  lemma PumpLoose(sys: System)
    requires Loose(sys)
    ensures Readable(sys.trace.fb) && Loose(Next(sys, Pumps))
    ensures Quiet(sys) ==> InStep(sys) ==> InStep(Next(sys, Pumps))
    ensures !Quiet(sys) && TellsAll(sys) ==> InStep(Next(sys, Pumps))
  {
    InvReadable(sys.trace);
    var (s, fb) := (sys.session, sys.trace.fb);
    hide DamageLog.Inv, Updated, DamageFor, ReceivedAll, Fences, TellsAll, Readable;
    AnnouncementsDrawNothing(sys.canvas, []);
    AnnouncementsDrawNothing(sys.canvas, Announcements(s));
    if !Quiet(sys) {
      PumpUpdates(sys);
    }
  }

  lemma PumpUpdates(sys: System)
    requires Loose(sys) && Readable(sys.trace.fb) && !Quiet(sys)
    ensures Loose(Next(sys, Pumps))
    ensures TellsAll(sys) ==> InStep(Next(sys, Pumps))
  {
    var (s, fb) := (sys.session, sys.trace.fb);
    var (after, sent) := Updated(Announced(s), fb);
    UpdateDraws(sys);
    UpdatedState(s, fb);
    PastIsNow(sys.trace);
    if TellsAll(sys) {
      UpdateShowsFramebuffer(sys);
    }
    hide DamageLog.Inv, Updated, DamageFor, ReceivedAll, Fences, TellsAll, Readable;
    hide Announcements, Announced, DrawnAll, CutAll, Drawable;
    AnnouncedAhead(sys.canvas, s, sent);
  }

  lemma PumpInv(sys: System)
    requires SysInv(sys) && !Misled(sys)
    ensures Readable(sys.trace.fb) && SysInv(Next(sys, Pumps))
  {
    PumpLoose(sys);
    if !Waits(sys.session) && sys.trace.fb.painted {
      NotMisledTellsAll(sys);
    }
    hide DamageLog.Inv, Pumped, TellsAll, Readable, DamageFor, Next;
  }

  lemma UpdatedState(s: Session, fb: Fb)
    requires Readable(fb) && !s.fenceOutstanding
    ensures var (after, sent) := Updated(Announced(s), fb);
            && after.knownWidth == fb.width && after.knownHeight == fb.height
            && (after.closed && !s.closed ==>
                  (sent == [] && after.seen == s.seen && after.fenceOutstanding == s.fenceOutstanding))
            && (!after.closed ==>
                  (after.seen == fb.generation && after.fenceOutstanding == s.fenceSupported && after.pending.None?))
            && (s.closed ==> after.closed)
            && (after.closed && !s.closed ==>
                  (fb.width, fb.height) != (s.knownWidth, s.knownHeight)
                  && !s.edsSupported && !s.desktopSizeSupported)
  {}

  lemma PastIsNow(t: Trace)
    requires DamageLog.Inv(t)
    ensures 1 <= t.fb.generation && t.fb.generation in t.past && t.past[t.fb.generation] == t.fb.pixels
  {}

  lemma HappensInv(sys: System, change: Change)
    requires Loose(sys) && Enabled(sys, Happens(change)) && Readable(sys.trace.fb)
    ensures Loose(Next(sys, Happens(change)))
    ensures InStep(sys) ==> InStep(Next(sys, Happens(change)))
  {
    hide DamageLog.Inv, Traced;
    ChangeInv(sys.trace, change);
    if sys.session.seen != 0 {
      PastStays(sys.trace, change, sys.session.seen);
    }
  }

  /** Every event keeps the canvas in step, but for a look that is misled; and everything else
      is kept even then. */
  lemma NextInv(sys: System, e: Event)
    requires Loose(sys) && Enabled(sys, e)
    ensures Readable(sys.trace.fb) && Loose(Next(sys, e))
    ensures InStep(sys) && !(e.Pumps? && Misled(sys)) ==> InStep(Next(sys, e))
  {
    InvReadable(sys.trace);
    hide DamageLog.Inv, Traced, Pumped, Misled;
    match e
    case Happens(change) => HappensInv(sys, change);
    case Pumps =>
      PumpLoose(sys);
      if InStep(sys) && !Misled(sys) {
        PumpInv(sys);
      }
    case _ =>
  }

  ghost function Begun(w: u16, h: u16, canvas: Canvas): System {
    System(Begin(w, h), NewSession(canvas.width, canvas.height), canvas, 0)
  }

  /** The events can happen one after the other. */
  ghost predicate CanRun(sys: System, events: seq<Event>)
    decreases |events|
  {
    events == []
    || (Enabled(sys, events[0]) && Readable(sys.trace.fb) && WellCanvas(sys.canvas)
        && CanRun(Next(sys, events[0]), events[1..]))
  }

  ghost function Ran(sys: System, events: seq<Event>): System
    requires CanRun(sys, events)
    decreases |events|
  {
    if events == [] then sys else Ran(Next(sys, events[0]), events[1..])
  }

  /** No look of the run is misled. */
  ghost predicate NeverMisled(sys: System, events: seq<Event>)
    requires CanRun(sys, events)
    decreases |events|
  {
    events == []
    || (!(events[0].Pumps? && Misled(sys)) && NeverMisled(Next(sys, events[0]), events[1..]))
  }

  lemma {:induction false} RunKeeps(sys: System, events: seq<Event>)
    requires Loose(sys) && CanRun(sys, events)
    ensures Loose(Ran(sys, events))
    ensures InStep(sys) && NeverMisled(sys, events) ==> InStep(Ran(sys, events))
    decreases |events|
  {
    hide Loose, InStep, Next, Misled;
    if events == [] {
    } else {
      NextInv(sys, events[0]);
      RunKeeps(Next(sys, events[0]), events[1..]);
    }
  }

  /** Whether the canvas is in step after a run, from one where it is or is not: a misled look
      takes it out, and a full one brings it back. */
  ghost predicate StillInStep(sys: System, events: seq<Event>, inStep: bool)
    requires CanRun(sys, events)
    decreases |events|
  {
    if events == [] then inStep
    else
      var looks := events[0].Pumps?;
      StillInStep(Next(sys, events[0]), events[1..],
                  (looks && FullLook(sys)) || (inStep && !(looks && Misled(sys))))
  }

  lemma {:induction false} RunInStep(sys: System, events: seq<Event>, inStep: bool)
    requires Loose(sys) && CanRun(sys, events) && (inStep ==> InStep(sys))
    ensures StillInStep(sys, events, inStep) ==> InStep(Ran(sys, events))
    decreases |events|
  {
    hide Loose, InStep, Next, Misled, FullLook;
    if events != [] {
      NextInv(sys, events[0]);
      if events[0].Pumps? && FullLook(sys) {
        FullLookInStep(sys);
      }
      var looks := events[0].Pumps?;
      RunInStep(Next(sys, events[0]), events[1..],
                (looks && FullLook(sys)) || (inStep && !(looks && Misled(sys))));
    }
  }

  lemma FullLookInStep(sys: System)
    requires Loose(sys) && FullLook(sys) && Readable(sys.trace.fb)
    ensures InStep(Next(sys, Pumps))
  {
    PumpLoose(sys);
    FullTellsAll(sys);
    hide Loose, InStep, TellsAll, Next, DamageFor;
  }

  lemma BegunInv(w: u16, h: u16, canvas: Canvas)
    requires WellCanvas(canvas)
    ensures SysInv(Begun(w, h, canvas))
  {
    BeginInv(w, h);
  }

  /** A look is exact. An update is sent only to a client that wants one and owes no fence; it
      leaves the client with the framebuffer as it is, and with one fence to answer where it
      can. None sent, of a painted framebuffer to such a client, means that it already had it,
      unless the session ends for want of a way to tell it a new size. */
  ghost predicate ExactLook(sys: System) {
    && Readable(sys.trace.fb) && WellCanvas(sys.canvas)
    && var (s, fb) := (sys.session, sys.trace.fb);
       var after := Next(sys, Pumps);
       var sent := Pumped(s, fb).1;
       var room := !s.closed && (s.continuous || s.pending.Some?) && sys.unanswered == 0;
       && (HasUpdate(sent) ==>
             && room && fb.painted
             && after.canvas == Canvas(fb.width, fb.height, fb.pixels)
             && after.session.seen == fb.generation && after.session.pending.None?
             && after.unanswered == (if s.fenceSupported then 1 else 0))
       && (!HasUpdate(sent) && !after.session.closed && room && fb.painted ==>
             sys.canvas == Canvas(fb.width, fb.height, fb.pixels) && after.canvas == sys.canvas)
       && (after.session.closed && !s.closed ==>
             && (fb.width, fb.height) != (s.knownWidth, s.knownHeight)
             && !s.edsSupported && !s.desktopSizeSupported)
       && after.unanswered <= 1
  }

  /** For every interleaving, whenever the session looks: while no look has been misled, a look
      that is not is exact. */
  lemma EveryUpdateIsExact(w: u16, h: u16, canvas: Canvas, events: seq<Event>)
    requires WellCanvas(canvas) && CanRun(Begun(w, h, canvas), events)
    requires NeverMisled(Begun(w, h, canvas), events) && !Misled(Ran(Begun(w, h, canvas), events))
    ensures ExactLook(Ran(Begun(w, h, canvas), events))
  {
    BegunInv(w, h, canvas);
    RunKeeps(Begun(w, h, canvas), events);
    hide ExactLook, Misled, NeverMisled, Loose, InStep;
    PumpIsExact(Ran(Begun(w, h, canvas), events));
  }

  /** A system that a run leads to, misled on the way or not. */
  ghost predicate Reached(sys: System, w: u16, h: u16, canvas: Canvas, events: seq<Event>) {
    WellCanvas(canvas) && CanRun(Begun(w, h, canvas), events) && sys == Ran(Begun(w, h, canvas), events)
  }

  /** Whatever went wrong earlier, a full update puts it right: from the last one on every look
      is exact while none is misled. */
  lemma ExactSinceTheLastFullUpdate(w: u16, h: u16, canvas: Canvas, earlier: seq<Event>, sys: System, later: seq<Event>)
    requires Reached(sys, w, h, canvas, earlier) && FullLook(sys) && Readable(sys.trace.fb) && WellCanvas(sys.canvas)
    requires CanRun(Next(sys, Pumps), later) && NeverMisled(Next(sys, Pumps), later)
    ensures !Misled(Ran(Next(sys, Pumps), later)) ==> ExactLook(Ran(Next(sys, Pumps), later))
  {
    BegunInv(w, h, canvas);
    RunKeeps(Begun(w, h, canvas), earlier);
    PumpLoose(sys);
    FullTellsAll(sys);
    hide ExactLook, Misled, Loose, InStep, TellsAll, Next, DamageFor, DamageLog.Inv;
    RunKeeps(Next(sys, Pumps), later);
    if !Misled(Ran(Next(sys, Pumps), later)) {
      PumpIsExact(Ran(Next(sys, Pumps), later));
    }
  }

  lemma PumpIsExact(sys: System)
    requires SysInv(sys) && !Misled(sys)
    ensures ExactLook(sys)
  {
    InvReadable(sys.trace);
    var (s, fb) := (sys.session, sys.trace.fb);
    hide DamageLog.Inv, Pumped, Next, Updated, DamageFor, HasUpdate, NothingLost, Readable;
    if Quiet(sys) {
      PumpQuiet(sys);
    } else {
      PumpSends(sys);
    }
  }

  /** Nothing is drawn where there is nothing to send, or nobody to send it to. */
  lemma PumpQuiet(sys: System)
    requires SysInv(sys) && !Misled(sys) && Readable(sys.trace.fb) && Quiet(sys)
    ensures var after := Next(sys, Pumps);
            && !HasUpdate(Pumped(sys.session, sys.trace.fb).1)
            && after.canvas == sys.canvas && after.unanswered == sys.unanswered
            && after.session.closed == sys.session.closed
    ensures var fb := sys.trace.fb;
            !Waits(sys.session) && fb.painted ==> sys.canvas == Canvas(fb.width, fb.height, fb.pixels)
  {
    var (s, fb) := (sys.session, sys.trace.fb);
    AnnouncementsDrawNothing(sys.canvas, Announcements(s));
    AnnouncementsDrawNothing(sys.canvas, []);
    if !Waits(s) && fb.painted {
      NothingToSend(sys);
    }
    hide DamageLog.Inv, Updated, DamageFor, ReceivedAll, Fences, NothingLost, Readable;
  }

  /** What is sent after the announcements is all that counts of a message. */
  lemma AnnouncedAhead(c: Canvas, s: Session, sent: seq<Message>)
    requires WellCanvas(c) && (sent == [] || sent[|sent| - 1].Update?)
    ensures ReceivedAll(c, Announcements(s) + sent) == ReceivedAll(c, sent)
    ensures Fences(Announcements(s) + sent) == Fences(sent)
    ensures HasUpdate(Announcements(s) + sent) <==> sent != []
    ensures ReceivedAll(c, []) == c && Fences([]) == 0
  {
    AnnouncementsDrawNothing(c, Announcements(s));
    AnnouncementsDrawNothing(c, []);
    hide ReceivedAll, Fences, Announcements, HasUpdate;
    ReceivedSum(c, Announcements(s), sent);
    UpdateAtEnd(Announcements(s), sent);
  }

  lemma PumpSends(sys: System)
    requires SysInv(sys) && !Misled(sys) && Readable(sys.trace.fb) && !Quiet(sys)
    ensures var fb := sys.trace.fb;
            var after := Next(sys, Pumps);
            && HasUpdate(Pumped(sys.session, fb).1) == !after.session.closed
            && sys.unanswered == 0 && after.unanswered <= 1
            && (after.session.closed ==>
                  && (fb.width, fb.height) != (sys.session.knownWidth, sys.session.knownHeight)
                  && !sys.session.edsSupported && !sys.session.desktopSizeSupported)
            && (!after.session.closed ==>
                  && after.unanswered == (if sys.session.fenceSupported then 1 else 0)
                  && after.canvas == Canvas(fb.width, fb.height, fb.pixels)
                  && after.session.seen == fb.generation && after.session.pending.None?)
  {
    var (s, fb) := (sys.session, sys.trace.fb);
    var (after, sent) := Updated(Announced(s), fb);
    NotMisledTellsAll(sys);
    UpdateDraws(sys);
    UpdateShowsFramebuffer(sys);
    UpdatedState(s, fb);
    hide DamageLog.Inv, Updated, DamageFor, ReceivedAll, Fences, NothingLost, Readable, HasUpdate;
    hide Announcements, Announced, DrawnAll, CutAll, Drawable, TellsAll;
    AnnouncedAhead(sys.canvas, s, sent);
  }

  lemma UpdateAtEnd(a: seq<Message>, b: seq<Message>)
    ensures b != [] && b[|b| - 1].Update? ==> HasUpdate(a + b)
    ensures b == [] && (forall i :: 0 <= i < |a| ==> a[i].Announcement?) ==> !HasUpdate(a + b)
  {
    if b != [] {
      assert (a + b)[|a + b| - 1] == b[|b| - 1];
    }
  }

  /** Empty damage is a client that has the framebuffer already. */
  lemma NothingToSend(sys: System)
    requires SysInv(sys) && !Misled(sys) && !Waits(sys.session) && sys.trace.fb.painted
    requires DamageFor(sys.session, sys.trace.fb) == Some([])
    ensures sys.canvas == Canvas(sys.trace.fb.width, sys.trace.fb.height, sys.trace.fb.pixels)
  {
    var fb := sys.trace.fb;
    DamageIsSound(sys.trace, sys.session.seen);
    assert Unchanged(sys.canvas.rows, fb, []);
    forall y | 0 <= y < fb.height ensures sys.canvas.rows[y] == fb.pixels[y] {
      assert forall x :: 0 <= x < fb.width ==> !CoveredBy([], x, y);
    }
  }
}
