/** When a session's update is exact whatever the frames hold (src/session.rs,
    src/framebuffer.rs).
 */
module UpdateExactness {
  import opened Options
  import opened Rects
  import opened Framebuffers
  import opened DamageLog
  import opened DamageExactness
  import opened Sessions
  import opened UpdateLoop

  /** The same event but for what a frame holds. */
  predicate AlikeEvent(e: Event, f: Event) {
    if e.Happens? then f.Happens? && AlikeChange(e.change, f.change) else f == e
  }

  predicate AlikeEvents(events: seq<Event>, others: seq<Event>) {
    |others| == |events| && forall i :: 0 <= i < |events| ==> AlikeEvent(events[i], others[i])
  }

  /** The same but for the pictures. */
  predicate AlikeSystem(a: System, b: System) {
    AlikeTrace(a.trace, b.trace) && a.session == b.session
  }

  /** What a session becomes does not depend on the pictures. */
  lemma AlikeSession(s: Session, a: Fb, b: Fb)
    requires Readable(a) && Readable(b) && AlikeFb(a, b)
    ensures Pumped(s, a).0 == Pumped(s, b).0 && DamageFor(s, a) == DamageFor(s, b)
  {
    assert DamageSince(a, s.seen) == DamageSince(b, s.seen);
    hide DamageSince, CutAll, RectsFor, Limited, Readable;
  }

  lemma AlikeLook(a: System, b: System)
    requires Loose(a) && Loose(b) && AlikeSystem(a, b)
    requires Readable(a.trace.fb) && Readable(b.trace.fb)
    ensures AlikeSystem(Next(a, Pumps), Next(b, Pumps)) && (Misled(a) <==> Misled(b))
    ensures FullLook(a) <==> FullLook(b)
  {
    AlikeSession(a.session, a.trace.fb, b.trace.fb);
    AlikeAnswer(a.trace, b.trace, a.session.seen);
    hide DamageSince, NothingLost, Pumped, ReceivedAll, Fences, Loose, Readable;
  }

  lemma AlikeNext(a: System, b: System, e: Event, f: Event)
    requires Loose(a) && Loose(b) && AlikeSystem(a, b) && AlikeEvent(e, f) && Enabled(a, e) && Enabled(b, f)
    requires Readable(a.trace.fb) && Readable(b.trace.fb)
    ensures AlikeSystem(Next(a, e), Next(b, f))
    ensures f.Pumps? == e.Pumps? && (Misled(a) <==> Misled(b)) && (FullLook(a) <==> FullLook(b))
  {
    AlikeLook(a, b);
    hide AlikeTrace, AlikeChange, Traced, Pumped, Misled, DamageLog.Inv;
    if e.Happens? {
      AlikeStep(a.trace, b.trace, e.change, f.change);
    }
  }

  /** Alike runs end alike, and are misled alike. */
  lemma {:induction false} AlikeRun(a: System, b: System, events: seq<Event>, others: seq<Event>, inStep: bool)
    requires Loose(a) && Loose(b) && AlikeSystem(a, b) && AlikeEvents(events, others)
    requires CanRun(a, events) && CanRun(b, others)
    ensures AlikeSystem(Ran(a, events), Ran(b, others))
    ensures StillInStep(a, events, inStep) <==> StillInStep(b, others, inStep)
    decreases |events|
  {
    hide Loose, AlikeSystem, AlikeEvent, Next, Enabled, Misled, FullLook;
    if events != [] {
      assert AlikeEvent(events[0], others[0]);
      NextInv(a, events[0]);
      NextInv(b, others[0]);
      AlikeNext(a, b, events[0], others[0]);
      assert AlikeEvents(events[1..], others[1..]);
      var looks := events[0].Pumps?;
      AlikeRun(Next(a, events[0]), Next(b, others[0]), events[1..], others[1..],
               (looks && FullLook(a)) || (inStep && !(looks && Misled(a))));
    }
  }

  // ----- frames that show what was lost

  function RecoloredEvent(fb: Fb, e: Event, since: nat): (f: Event)
    ensures AlikeEvent(e, f)
  {
    if e.Happens? then Happens(Recolored(fb, e.change, since)) else e
  }

  lemma RecoloredNext(a: System, b: System, e: Event, since: nat)
    requires Loose(a) && Loose(b) && AlikeSystem(a, b) && Colored(b.trace, since) && since >= 1 && Enabled(a, e)
    ensures var f := RecoloredEvent(b.trace.fb, e, since);
            Enabled(b, f) && Readable(b.trace.fb) && WellCanvas(b.canvas) && Colored(Next(b, f).trace, since)
  {
    InvReadable(b.trace);
    hide Readable, Colored, Traced, Pumped, Accepts;
    if e.Happens? {
      RecoloredStep(a.trace, b.trace, e.change, since);
    }
  }

  /** Every run has one alike of plain frames. */
  lemma {:induction false} RecoloredRun(a: System, b: System, events: seq<Event>, since: nat)
    returns (others: seq<Event>)
    requires Loose(a) && Loose(b) && AlikeSystem(a, b) && Colored(b.trace, since) && since >= 1
    requires CanRun(a, events)
    ensures AlikeEvents(events, others) && CanRun(b, others) && Colored(Ran(b, others).trace, since)
    decreases |events|
  {
    hide Loose, AlikeSystem, AlikeEvent, Next, Enabled, Misled, Colored;
    if events == [] {
      others := [];
    } else {
      var f := RecoloredEvent(b.trace.fb, events[0], since);
      RecoloredNext(a, b, events[0], since);
      NextInv(a, events[0]);
      NextInv(b, f);
      AlikeNext(a, b, events[0], f);
      var rest := RecoloredRun(Next(a, events[0]), Next(b, f), events[1..], since);
      others := [f] + rest;
      assert others[1..] == rest;
    }
  }

  /** What an update by damage leaves of a pixel outside it. */
  lemma OutsideStays(sys: System, x: nat, y: nat)
    requires Loose(sys) && Misled(sys) && !Quiet(sys) && Readable(sys.trace.fb)
    requires x < sys.trace.fb.width && y < sys.trace.fb.height
    requires !CoveredBy(DamageFor(sys.session, sys.trace.fb).value, x, y)
    ensures var (s, fb, c) := (sys.session, sys.trace.fb, sys.canvas);
            var (after, sent) := Updated(Announced(s), fb);
            && !after.closed && c.width == fb.width && c.height == fb.height
            && sent != [] && sent[|sent| - 1].Update?
            && ReceivedAll(c, sent).width == fb.width && ReceivedAll(c, sent).height == fb.height
            && ReceivedAll(c, sent).rows[y][x] == c.rows[y][x]
  {
    var (s, fb, c) := (sys.session, sys.trace.fb, sys.canvas);
    UpdateDraws(sys);
    CutDrawn(c.rows, fb.pixels, RectsFor(s, fb), fb.width, fb.height, x, y);
    hide DamageLog.Inv, ReceivedAll, Fences, NothingLost, Readable, DrawnAll, CutAll, Drawable, CoveredBy, Blank;
  }

  /** A pixel outside the answer that has changed is wrong after the look. */
  lemma LostPixelStaysWrong(sys: System, x: nat, y: nat)
    requires SysInv(sys) && Misled(sys) && Readable(sys.trace.fb)
    requires x < sys.trace.fb.width && y < sys.trace.fb.height
    requires !CoveredBy(DamageFor(sys.session, sys.trace.fb).value, x, y)
    requires sys.session.seen in sys.trace.past
    requires Sized(sys.trace.past[sys.session.seen], sys.trace.fb.width, sys.trace.fb.height)
    requires sys.trace.past[sys.session.seen][y][x] != sys.trace.fb.pixels[y][x]
    ensures !ExactLook(sys)
  {
    var (s, fb, c) := (sys.session, sys.trace.fb, sys.canvas);
    assert c.width == fb.width && c.height == fb.height && c.rows[y][x] != fb.pixels[y][x];
    hide DamageLog.Inv, NothingLost, Readable, CoveredBy, Loose, InStep;
    if Quiet(sys) {
      QuietKeeps(sys);
      hide Next, Pumped;
    } else {
      OutsideStays(sys, x, y);
      AnnouncedAhead(c, s, Updated(Announced(s), fb).1);
      hide Updated, DamageFor, ReceivedAll, Fences, HasUpdate, Announcements, Announced, Misled;
    }
  }

  lemma QuietKeeps(sys: System)
    requires Readable(sys.trace.fb) && WellCanvas(sys.canvas) && Misled(sys) && Quiet(sys)
    ensures !HasUpdate(Pumped(sys.session, sys.trace.fb).1) && !Next(sys, Pumps).session.closed
  {
    var s := sys.session;
    AnnouncedAhead(sys.canvas, s, []);
    assert Announcements(s) + [] == Announcements(s);
    hide Updated, DamageFor, ReceivedAll, Fences, NothingLost, Readable, HasUpdate, Announcements;
  }

  lemma MisledIsWrong(sys: System)
    requires SysInv(sys) && Misled(sys) && Colored(sys.trace, sys.session.seen)
    ensures !ExactLook(sys)
  {
    InvReadable(sys.trace);
    var x, y := LostPixelShows(sys.trace, sys.session.seen);
    LostPixelStaysWrong(sys, x, y);
  }

  // ----- the exact condition

  /** After any run, unless a misled look has not yet been put right by a full update, the next
      look is exact whatever the frames hold if and only if it is not misled. */
  lemma LookIsExactWhateverTheFramesHold(w: u16, h: u16, canvas: Canvas, events: seq<Event>)
    requires WellCanvas(canvas) && CanRun(Begun(w, h, canvas), events)
    requires StillInStep(Begun(w, h, canvas), events, true)
    ensures (forall others :: AlikeEvents(events, others) && CanRun(Begun(w, h, canvas), others) ==>
               ExactLook(Ran(Begun(w, h, canvas), others)))
            <==> !Misled(Ran(Begun(w, h, canvas), events))
  {
    var begun := Begun(w, h, canvas);
    var sys := Ran(begun, events);
    BegunInv(w, h, canvas);
    AlikeItself(begun.trace);
    assert begun.trace == Begin(w, h);
    hide Begun, Begin, Loose, InStep, AlikeEvents, Misled, ExactLook, Ran, CanRun, StillInStep, AlikeTrace, Colored;
    RunKeeps(begun, events);
    if Misled(sys) {
      var since := sys.session.seen;
      MisledSeen(sys);
      BeginColored(w, h, since);
      var others := RecoloredRun(begun, begun, events, since);
      AlikeEnds(begun, events, others);
      MisledIsWrong(Ran(begun, others));
    } else {
      forall others | AlikeEvents(events, others) && CanRun(begun, others) ensures ExactLook(Ran(begun, others)) {
        AlikeEnds(begun, events, others);
        PumpIsExact(Ran(begun, others));
      }
    }
  }

  lemma MisledSeen(sys: System)
    requires Misled(sys)
    ensures sys.session.seen >= 1
  {}

  lemma AlikeEnds(begun: System, events: seq<Event>, others: seq<Event>)
    requires SysInv(begun) && AlikeEvents(events, others) && CanRun(begun, events) && CanRun(begun, others)
    requires StillInStep(begun, events, true)
    ensures SysInv(Ran(begun, others)) && Ran(begun, others).session == Ran(begun, events).session
    ensures Misled(Ran(begun, others)) <==> Misled(Ran(begun, events))
  {
    AlikeItself(begun.trace);
    AlikeRun(begun, begun, events, others, true);
    RunKeeps(begun, events);
    RunKeeps(begun, others);
    RunInStep(begun, others, true);
    InvReadable(Ran(begun, events).trace);
    InvReadable(Ran(begun, others).trace);
    hide Ran, CanRun, StillInStep, AlikeEvents, AlikeTrace, Misled, InStep, Next;
    AlikeLook(Ran(begun, events), Ran(begun, others));
  }

  // ----- a session that is wrong

  /** Painted, with one entry in the log, and blank. */
  predicate OnceBlank(t: Trace) {
    && WellSized(t.fb) && t.fb.width == 4 && t.fb.height == 1 && |t.fb.log| == 1 && t.fb.painted
    && t.fb.generation == 2 && t.fb.sizeGeneration == 1
    && t.fb.pixels[0][0] == BLANK && 2 in t.past && t.past[2] == t.fb.pixels
  }

  /** Its answer for generation 2 leaves out the corner, which has changed since. */
  ghost predicate LosesCorner(t: Trace) {
    && t.fb.width == 4 && t.fb.height == 1 && t.fb.painted && WellSized(t.fb)
    && DamageSince(t.fb, 2).Some? && !NothingLost(t, 2) && !CoveredBy(DamageSince(t.fb, 2).value, 0, 0)
    && 2 in t.past && Sized(t.past[2], 4, 1) && t.past[2][0][0] != t.fb.pixels[0][0]
  }

  function FirstChange(): Change {
    Apply(Plain(4, 1, 0), [Whole(4, 1)])
  }

  function SplittingChange(): Change {
    Apply(OnesFrame(), SplittingDamage())
  }

  lemma BlankPainted(t: Trace)
    requires t == Begin(4, 1)
    ensures Accepts(t.fb, FirstChange()) && OnceBlank(Traced(t, FirstChange()))
  {
    var f, damage := Plain(4, 1, 0), [Whole(4, 1)];
    assert t.fb.pixels[0][0] == BLANK;
    hide Plain, Straightened;
    AllNoted(damage, 4, 1);
    hide Noted, Blank;
    PlainPainted(t.fb.pixels, 4, 1, 0, damage);
    TracedApply(t, f, damage);
    hide Painted, Trimmed, Overflow;
    var u := Traced(t, Apply(f, damage));
    assert u.fb.painted;
    assert |Full(u)| == 1;
  }

  lemma SplitOverBlank(t: Trace)
    requires OnceBlank(t)
    ensures Accepts(t.fb, SplittingChange()) && LosesCorner(Traced(t, SplittingChange()))
  {
    hide OnesFrame, SplittingDamage, Applied, DamageSince, NothingLost, Split, CoveredBy, Traced;
    SplitTrace(t);
    SplitPixel(t.fb, OnesFrame(), SplittingDamage());
  }

  /** The first look: everything is sent, and the client has generation 2. */
  lemma FirstLook(sys: System)
    requires SysInv(sys) && Readable(sys.trace.fb) && OnceBlank(sys.trace)
    requires sys.session == NewSession(4, 1).(pending := Some(true))
    ensures !Misled(sys) && Next(sys, Pumps).trace == sys.trace
    ensures Next(sys, Pumps).session == NewSession(4, 1).(seen := 2)
  {
    hide CutAll, RectsFor, Readable, ReceivedAll, Fences, NothingLost;
    assert DamageFor(sys.session, sys.trace.fb).None?;
    assert Announced(sys.session) == sys.session;
  }

  lemma CornerIsWrong(sys: System)
    requires SysInv(sys) && Readable(sys.trace.fb) && LosesCorner(sys.trace)
    requires sys.session == NewSession(4, 1).(seen := 2, pending := Some(true))
    ensures Misled(sys) && !ExactLook(sys)
  {
    hide DamageSince, NothingLost, CoveredBy, ExactLook, Readable, SysInv;
    assert DamageFor(sys.session, sys.trace.fb) == DamageSince(sys.trace.fb, 2);
    assert Misled(sys);
    LostPixelStaysWrong(sys, 0, 0);
  }

  /** A run is in step so far. */
  ghost predicate Goes(begun: System, events: seq<Event>) {
    && CanRun(begun, events) && NeverMisled(begun, events)
    && SysInv(Ran(begun, events)) && Readable(Ran(begun, events).trace.fb)
  }

  /** A run goes on: what its next event makes of the trace and the session. */
  lemma GoesOn(begun: System, events: seq<Event>, e: Event)
    requires Goes(begun, events)
    requires var sys := Ran(begun, events); Enabled(sys, e) && !(e.Pumps? && Misled(sys))
    ensures var sys := Ran(begun, events);
            && Goes(begun, events + [e]) && Ran(begun, events + [e]) == Next(sys, e)
            && (e.Happens? ==> Next(sys, e) == sys.(trace := Traced(sys.trace, e.change)))
            && (e.Asks? ==> Next(sys, e) == sys.(session := Requested(sys.session, e.incremental)))
  {
    var sys := Ran(begun, events);
    NextInv(sys, e);
    assert [e][1..] == [];
    assert CanRun(Next(sys, e), []) && NeverMisled(Next(sys, e), []);
    assert Ran(sys, [e]) == Next(sys, e);
    hide Loose, InStep, Misled, Pumped, Traced;
    InvOf(Next(sys, e));
    RunOn(begun, events, [e]);
  }

  lemma InvOf(sys: System)
    requires SysInv(sys)
    ensures Readable(sys.trace.fb)
  {
    InvReadable(sys.trace);
  }

  lemma {:induction false} RunOn(sys: System, a: seq<Event>, b: seq<Event>)
    requires CanRun(sys, a) && NeverMisled(sys, a) && CanRun(Ran(sys, a), b) && NeverMisled(Ran(sys, a), b)
    ensures CanRun(sys, a + b) && NeverMisled(sys, a + b) && Ran(sys, a + b) == Ran(Ran(sys, a), b)
    decreases |a|
  {
    hide Next, Enabled, Misled, Readable;
    if a == [] {
      assert a + b == b;
    } else {
      assert (a + b)[1..] == a[1..] + b && (a + b)[0] == a[0];
      RunOn(Next(sys, a[0]), a[1..], b);
    }
  }

  /** A client that is sent one frame whole, and then the damage of one that splits a
      generation, shows a picture that is not the framebuffer. */
  lemma WrongCanvas()
    ensures var begun := Begun(4, 1, Canvas(4, 1, Blank(4, 1)));
            var looked := [] + [Happens(FirstChange())] + [Asks(true)] + [Pumps];
            var events := looked + [Asks(true)] + [Happens(SplittingChange())];
            && CanRun(begun, events) && NeverMisled(begun, events)
            && Misled(Ran(begun, events)) && !ExactLook(Ran(begun, events))
  {
    var begun := Begun(4, 1, Canvas(4, 1, Blank(4, 1)));
    BegunInv(4, 1, Canvas(4, 1, Blank(4, 1)));
    InvOf(begun);
    BlankPainted(begun.trace);
    assert begun.session == NewSession(4, 1);
    assert Goes(begun, []) && Ran(begun, []) == begun;
    hide *;
    WrongFrom(begun);
  }

  lemma WrongFrom(begun: System)
    requires Goes(begun, []) && Ran(begun, []) == begun && begun.session == NewSession(4, 1)
    requires Accepts(begun.trace.fb, FirstChange()) && OnceBlank(Traced(begun.trace, FirstChange()))
    ensures var looked := [] + [Happens(FirstChange())] + [Asks(true)] + [Pumps];
            var events := looked + [Asks(true)] + [Happens(SplittingChange())];
            && CanRun(begun, events) && NeverMisled(begun, events)
            && Misled(Ran(begun, events)) && !ExactLook(Ran(begun, events))
  {
    hide Misled, ExactLook, SysInv, Readable, OnceBlank, LosesCorner, Traced, Pumped;
    hide FirstChange, SplittingChange, Next, Ran, CanRun, NeverMisled;
    var one := [] + [Happens(FirstChange())];
    GoesOn(begun, [], Happens(FirstChange()));
    GoesOn(begun, one, Asks(true));
    var two := one + [Asks(true)];
    FirstLook(Ran(begun, two));
    GoesOn(begun, two, Pumps);
    var three := two + [Pumps];
    GoesOn(begun, three, Asks(true));
    var four := three + [Asks(true)];
    SplitOverBlank(Ran(begun, four).trace);
    GoesOn(begun, four, Happens(SplittingChange()));
    CornerIsWrong(Ran(begun, four + [Happens(SplittingChange())]));
  }
}
