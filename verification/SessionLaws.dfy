/** What a session owes a request: everything to one for everything, and the announcements first
    (src/session.rs).
 */
module SessionLaws {
  import opened Options
  import opened Rects
  import opened Framebuffers
  import opened DamageLog
  import opened Sessions
  import opened UpdateLoop

  /** The session can send now: it is open, and owed no answer to a fence. */
  predicate Open(s: Session) {
    !s.closed && !s.fenceOutstanding
  }

  /** The pieces hold every pixel of a framebuffer, as it is. */
  ghost predicate HoldsEverything(pieces: seq<Piece>, fb: Fb)
    requires WellSized(fb)
  {
    forall x, y :: 0 <= x < fb.width && 0 <= y < fb.height ==> HoldsPixel(pieces, x, y, fb.pixels[y][x])
  }

  ghost predicate HoldsPixel(pieces: seq<Piece>, x: nat, y: nat, px: Pixel) {
    exists i :: 0 <= i < |pieces| && PixelOf(pieces[i], x, y) == Some(px)
  }

  function PixelOf(p: Piece, x: nat, y: nat): Option<Pixel> {
    if p.rect.x <= x && p.rect.y <= y && y - p.rect.y < |p.rows| && x - p.rect.x < |p.rows[y - p.rect.y]|
    then Some(p.rows[y - p.rect.y][x - p.rect.x]) else None
  }

  /** The size is new to the client, and there is no way to tell it. */
  predicate CannotBeTold(s: Session, fb: Fb) {
    (fb.width != s.knownWidth || fb.height != s.knownHeight) && !s.edsSupported && !s.desktopSizeSupported
  }

  /** A session that has been asked for everything, or has sent nothing yet, or whose framebuffer
      is of a size new to its client, sends every pixel; or ends, exactly where it cannot tell the
      client the size. */
  lemma EverythingIsSent(s: Session, fb: Fb)
    requires Readable(fb) && fb.painted && Open(s) && (s.continuous || s.pending.Some?)
    requires s.pending == Some(false) || s.seen == 0 || fb.width != s.knownWidth || fb.height != s.knownHeight
    ensures var (after, sent) := Pumped(s, fb);
            && (after.closed <==> CannotBeTold(s, fb))
            && (!after.closed ==>
                  && sent != [] && sent[|sent| - 1].Update? && sent[|sent| - 1].fenced == s.fenceSupported
                  && HoldsEverything(sent[|sent| - 1].pieces, fb)
                  && after.pending.None? && after.seen == fb.generation
                  && after.fenceOutstanding == s.fenceSupported)
  {
    AnnouncedAll(s);
    UpdatedWhole(Announced(s), fb);
    var (after, sent) := Updated(Announced(s), fb);
    var all := Announcements(s) + sent;
    assert sent != [] ==> all[|all| - 1] == sent[|sent| - 1];
    assert DamageFor(s, fb).None?;
    hide HoldsEverything, Readable, Updated, Announcements, Announced, DamageFor;
  }

  /** The update, where there is all to send. */
  lemma UpdatedWhole(s: Session, fb: Fb)
    requires Readable(fb) && SendsAll(s, fb) && !s.closed && !s.fenceOutstanding
    ensures var (after, sent) := Updated(s, fb);
            && (after.closed <==> CannotBeTold(s, fb))
            && (!after.closed ==>
                  && sent != [] && sent[|sent| - 1].Update? && sent[|sent| - 1].fenced == s.fenceSupported
                  && HoldsEverything(sent[|sent| - 1].pieces, fb)
                  && after.pending.None? && after.seen == fb.generation
                  && after.fenceOutstanding == s.fenceSupported)
  {
    WholeIsEverything(fb);
    assert RectsFor(s, fb) == [Whole(fb.width, fb.height)];
    hide CutAll, HoldsEverything, Readable, RectsFor;
  }

  lemma WholeIsEverything(fb: Fb)
    requires WellSized(fb)
    ensures AllWithin([Whole(fb.width, fb.height)], 0, 0, fb.width, fb.height)
    ensures HoldsEverything(CutAll(fb.pixels, [Whole(fb.width, fb.height)], fb.width, fb.height), fb)
  {
    var pieces := CutAll(fb.pixels, [Whole(fb.width, fb.height)], fb.width, fb.height);
    assert pieces[0] == Cut(fb.pixels, Whole(fb.width, fb.height), fb.width, fb.height);
    forall x, y | 0 <= x < fb.width && 0 <= y < fb.height ensures HoldsPixel(pieces, x, y, fb.pixels[y][x]) {
      assert PixelOf(pieces[0], x, y) == Some(fb.pixels[y][x]);
    }
  }

  function Owed(s: Session): nat {
    (if s.announceCursor then 1 else 0) + (if s.announceEds then 1 else 0) + (if s.announceAudio then 1 else 0)
  }

  lemma AnnouncementsAreOwed(s: Session)
    ensures |Announcements(s)| == Owed(s)
    ensures forall i :: 0 <= i < |Announcements(s)| ==> Announcements(s)[i].Announcement?
    ensures Announces(s) <==> Owed(s) > 0
  {}

  lemma UpdatesAnnounceNothing(s: Session, fb: Fb)
    requires Readable(fb)
    ensures var (after, sent) := Updated(Announced(s), fb);
            && (forall i :: 0 <= i < |sent| ==> !sent[i].Announcement?)
            && !after.announceCursor && !after.announceEds && !after.announceAudio
            && (sent == [] ==> after.closed)
  {
    hide CutAll, RectsFor, Readable;
  }

  /** What is sent: what is owed of announcements, and then other messages. */
  predicate AnnouncesFirst(sent: seq<Message>, owed: nat) {
    && |sent| >= owed
    && (forall i :: 0 <= i < owed ==> sent[i].Announcement?)
    && (forall i :: owed <= i < |sent| ==> !sent[i].Announcement?)
  }

  /** Every announcement owed is sent, ahead of any pixels, and is owed no more; where it is all
      there is it is the request's answer; and with no way to send, or nobody asking, nothing is
      sent and nothing changes. */
  lemma AnnouncementsAreSent(s: Session, fb: Fb)
    requires Readable(fb)
    ensures var (after, sent) := Pumped(s, fb);
            && (Open(s) && (s.continuous || s.pending.Some?) ==>
                  && AnnouncesFirst(sent, Owed(s)) && Owed(after) == 0
                  && (|sent| == Owed(s) && !after.closed ==>
                        after.pending == if Owed(s) > 0 then None else s.pending))
            && (!Open(s) || (!s.continuous && s.pending.None?) ==> sent == [] && after == s)
  {
    AnnouncementsAreOwed(s);
    UpdatesAnnounceNothing(s, fb);
    AnnouncedAll(s);
    var (after, sent) := Updated(Announced(s), fb);
    OwedThenMore(Announcements(s), sent);
    OwedThenMore(Announcements(s), []);
    assert Announcements(s) + [] == Announcements(s);
    hide CutAll, RectsFor, DamageFor, Readable, Updated, Announcements, AnnouncesFirst, Announces, Announced;
  }

  lemma AnnouncedAll(s: Session)
    ensures Owed(Announced(s)) == 0
    ensures Announced(s) == s.(announceCursor := false, announceEds := false, announceAudio := false)
  {}

  lemma OwedThenMore(owed: seq<Message>, more: seq<Message>)
    requires forall i :: 0 <= i < |owed| ==> owed[i].Announcement?
    requires forall i :: 0 <= i < |more| ==> !more[i].Announcement?
    ensures AnnouncesFirst(owed + more, |owed|)
  {
    assert forall i :: |owed| <= i < |owed + more| ==> (owed + more)[i] == more[i - |owed|];
  }

  // ----- a request for everything

  /** No look of the run sends anything. */
  ghost predicate NothingSent(sys: System, events: seq<Event>)
    requires CanRun(sys, events)
    decreases |events|
  {
    events == []
    || ((events[0].Pumps? ==> Pumped(sys.session, sys.trace.fb).1 == [])
        && NothingSent(Next(sys, events[0]), events[1..]))
  }

  /** A request is kept until something is sent, and one for everything is not weakened by any
      that come after it. */
  lemma {:induction false} RequestStands(sys: System, events: seq<Event>)
    requires CanRun(sys, events) && NothingSent(sys, events)
    ensures sys.session.pending == Some(false) ==> Ran(sys, events).session.pending == Some(false)
    ensures sys.session.pending.Some? ==> Ran(sys, events).session.pending.Some?
    decreases |events|
  {
    hide Readable, WellCanvas, Next;
    if events != [] {
      RequestStandsOnce(sys, events[0]);
      RequestStands(Next(sys, events[0]), events[1..]);
    }
  }

  lemma RequestStandsOnce(sys: System, e: Event)
    requires Enabled(sys, e) && Readable(sys.trace.fb) && WellCanvas(sys.canvas)
    requires e.Pumps? ==> Pumped(sys.session, sys.trace.fb).1 == []
    ensures sys.session.pending == Some(false) ==> Next(sys, e).session.pending == Some(false)
    ensures sys.session.pending.Some? ==> Next(sys, e).session.pending.Some?
  {
    AnnouncementsAreSent(sys.session, sys.trace.fb);
    hide Traced, Readable, DamageFor, CutAll, RectsFor;
  }

  /** A client that has asked for everything is sent every pixel at the first look that can send
      any, whatever else it has asked for since; unless something has been sent before. */
  lemma AFullRequestIsAnsweredInFull(sys: System, later: seq<Event>)
    requires Readable(sys.trace.fb) && WellCanvas(sys.canvas)
    requires CanRun(Next(sys, Asks(false)), later) && NothingSent(Next(sys, Asks(false)), later)
    requires var at := Ran(Next(sys, Asks(false)), later);
             Readable(at.trace.fb) && at.trace.fb.painted && Open(at.session)
    ensures var at := Ran(Next(sys, Asks(false)), later);
            var (after, sent) := Pumped(at.session, at.trace.fb);
            && (after.closed <==> CannotBeTold(at.session, at.trace.fb))
            && (!after.closed ==>
                  && sent != [] && sent[|sent| - 1].Update?
                  && HoldsEverything(sent[|sent| - 1].pieces, at.trace.fb))
  {
    RequestStands(Next(sys, Asks(false)), later);
    hide Ran, CanRun, NothingSent, HoldsEverything, Pumped, Readable;
    EverythingIsSent(Ran(Next(sys, Asks(false)), later).session, Ran(Next(sys, Asks(false)), later).trace.fb);
  }

  /** And one that has asked at all still is, when that look comes. */
  lemma ARequestIsHeard(sys: System, incremental: bool, later: seq<Event>)
    requires Readable(sys.trace.fb) && WellCanvas(sys.canvas)
    requires CanRun(Next(sys, Asks(incremental)), later) && NothingSent(Next(sys, Asks(incremental)), later)
    ensures Ran(Next(sys, Asks(incremental)), later).session.pending.Some?
  {
    RequestStands(Next(sys, Asks(incremental)), later);
  }
}
