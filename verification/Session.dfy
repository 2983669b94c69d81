/** A session's updates in the Raw encoding, one in flight at a time (src/session.rs;
    FramebufferUpdateRequest, FramebufferUpdate and Raw are sections 7.5.3, 7.6.1 and
    7.7.1 of RFC 6143).
 */
module Sessions {
  import opened Options
  import opened Rects
  import opened Framebuffers
  import opened DamageLog

  const MAX_RECTS: nat := 32

  /** A rectangle of an update, with copies of the pixels it covers. */
  datatype Piece = Piece(rect: Rect, rows: Rows)

  /** What a session sends its client. */
  datatype Message =
    | Announcement
    | DesktopSize(width: u16, height: u16)
    | Update(pieces: seq<Piece>, fenced: bool)

  datatype Session = Session(
    continuous: bool,
    // An update request not yet answered, and whether it is incremental.
    pending: Option<bool>,
    // The generation the client has, or 0 for none.
    seen: nat,
    knownWidth: u16,
    knownHeight: u16,
    fenceSupported: bool,
    fenceOutstanding: bool,
    edsSupported: bool,
    desktopSizeSupported: bool,
    announceCursor: bool,
    announceEds: bool,
    announceAudio: bool,
    closed: bool)

  function NewSession(w: u16, h: u16): Session {
    Session(false, None, 0, w, h, false, false, false, false, false, false, false, false)
  }

  /** A framebuffer whose damage lies in it. */
  predicate Readable(fb: Fb) {
    WellSized(fb) && EntriesInside(fb.log, fb.width, fb.height)
  }

  /** The pixels under a rectangle. */
  function Cut(rows: Rows, r: Rect, w: u16, h: u16): Piece
    requires Sized(rows, w, h) && r.Within(0, 0, w, h)
  {
    Piece(r, seq(r.height, i requires 0 <= i < r.height => rows[r.y + i][r.x..r.Right()]))
  }

  function CutAll(rows: Rows, rects: seq<Rect>, w: u16, h: u16): (pieces: seq<Piece>)
    requires Sized(rows, w, h) && AllWithin(rects, 0, 0, w, h)
    ensures |pieces| == |rects|
  {
    seq(|rects|, i requires 0 <= i < |rects| => Cut(rows, rects[i], w, h))
  }

  function Announcements(s: Session): seq<Message> {
    (if s.announceCursor then [Announcement] else [])
    + (if s.announceEds then [Announcement] else [])
    + (if s.announceAudio then [Announcement] else [])
  }

  predicate Announces(s: Session) {
    s.announceCursor || s.announceEds || s.announceAudio
  }

  /** The announcements sent: a request they answer, with no pixels behind them, is answered. */
  function Announced(s: Session): Session {
    s.(announceCursor := false, announceEds := false, announceAudio := false)
  }

  function Answered(s: Session): Session {
    if Announces(s) then Announced(s).(pending := None) else s
  }

  predicate Waits(s: Session) {
    s.closed || (!s.continuous && s.pending.None?) || s.fenceOutstanding
  }

  /** The client has been told the desktop is this size. */
  predicate Knows(s: Session, w: u16, h: u16) {
    (w, h) == (s.knownWidth, s.knownHeight)
  }

  /** The desktop is another size than the client knows. */
  predicate Resizes(s: Session, fb: Fb) {
    !Knows(s, fb.width, fb.height)
  }

  /** What there is to send is everything. */
  predicate SendsAll(s: Session, fb: Fb) {
    Resizes(s, fb) || s.pending == Some(false) || s.seen == 0
  }

  ghost function DamageFor(s: Session, fb: Fb): Option<seq<Rect>> {
    if SendsAll(s, fb) then None else DamageSince(fb, s.seen)
  }

  lemma AnswerInside(fb: Fb, since: nat)
    requires Readable(fb) && DamageSince(fb, since).Some?
    ensures var rects := DamageSince(fb, since).value;
            AllWithin(rects, 0, 0, fb.width, fb.height) && |rects| <= MAX_RECTS
  {
    if since < fb.generation {
      RectsAfterInside(fb.log, since, fb.width, fb.height);
      MergeKeeps(RectsAfter(fb.log, since), ANSWER_LIMIT, 0, 0, fb.width, fb.height);
    }
  }

  /** Past the limit, one bounding box. */
  ghost function Limited(rects: seq<Rect>): seq<Rect> {
    if |rects| > MAX_RECTS then Merge(rects, 1) else rects
  }

  lemma DamageInside(s: Session, fb: Fb)
    requires Readable(fb)
    ensures var rects := DamageFor(s, fb).GetOr([Whole(fb.width, fb.height)]);
            AllWithin(rects, 0, 0, fb.width, fb.height) && Limited(rects) == rects
  {
    if DamageFor(s, fb).Some? {
      AnswerInside(fb, s.seen);
    }
  }

  /** The rectangles an update carries: never past the limit, so never merged further. */
  ghost function RectsFor(s: Session, fb: Fb): (r: seq<Rect>)
    requires Readable(fb)
    ensures AllWithin(r, 0, 0, fb.width, fb.height)
    ensures r == DamageFor(s, fb).GetOr([Whole(fb.width, fb.height)])
  {
    DamageInside(s, fb);
    Limited(DamageFor(s, fb).GetOr([Whole(fb.width, fb.height)]))
  }

  /** Pieces of a framebuffer of this size and generation sent, the size told first where it
      is new. A client that cannot be told it is disconnected. */
  function Delivered(s: Session, pieces: seq<Piece>, w: u16, h: u16, generation: nat): (Session, seq<Message>) {
    var sized := s.(knownWidth := w, knownHeight := h);
    if !Knows(s, w, h) && !s.edsSupported && !s.desktopSizeSupported then (sized.(closed := true), [])
    else
      (sized.(seen := generation, pending := None,
              fenceOutstanding := s.fenceOutstanding || s.fenceSupported),
       (if Knows(s, w, h) then [] else [DesktopSize(w, h)]) + [Update(pieces, s.fenceSupported)])
  }

  /** The update sent, and the client then holding the framebuffer as it is. */
  ghost function Updated(s: Session, fb: Fb): (Session, seq<Message>)
    requires Readable(fb)
  {
    Delivered(s, CutAll(fb.pixels, RectsFor(s, fb), fb.width, fb.height), fb.width, fb.height, fb.generation)
  }

  /** What a session does with a framebuffer it may have to send. */
  ghost function Pumped(s: Session, fb: Fb): (Session, seq<Message>)
    requires Readable(fb)
  {
    if Waits(s) then (s, [])
    else if !fb.painted || DamageFor(s, fb) == Some([]) then (Answered(s), Announcements(s))
    else
      var (after, sent) := Updated(Announced(s), fb);
      (after, Announcements(s) + sent)
  }

  class RawSession {
    var continuous: bool
    var pending: Option<bool>
    var seen: nat
    var knownWidth: u16
    var knownHeight: u16
    var fenceSupported: bool
    var fenceOutstanding: bool
    var edsSupported: bool
    var desktopSizeSupported: bool
    var announceCursor: bool
    var announceEds: bool
    var announceAudio: bool
    var closed: bool

    ghost function Model(): Session
      reads this
    {
      Session(continuous, pending, seen, knownWidth, knownHeight, fenceSupported, fenceOutstanding,
              edsSupported, desktopSizeSupported, announceCursor, announceEds, announceAudio, closed)
    }

    constructor (w: u16, h: u16)
      ensures Model() == NewSession(w, h)
    {
      continuous, pending, seen, knownWidth, knownHeight := false, None, 0, w, h;
      fenceSupported, fenceOutstanding, edsSupported, desktopSizeSupported := false, false, false, false;
      announceCursor, announceEds, announceAudio, closed := false, false, false, false;
    }

    /** Send what there is to send, if the client wants it and holds no fence unanswered. */
    method MaybeUpdate(fb: Framebuffer) returns (out: seq<Message>)
      requires fb.Valid() && Readable(fb.Model())
      modifies this
      ensures (Model(), out) == Pumped(old(Model()), fb.Model())
    {
      hide Updated, DamageSince, EntriesInside, Sized;
      out := [];
      if closed || (!continuous && pending.None?) || fenceOutstanding {
        return;
      }
      ghost var before := Model();
      var announced := announceCursor || announceEds || announceAudio;
      out := Announce();
      if !fb.painted {
        if announced {
          pending := None;
        }
        return;
      }
      var full := (fb.width, fb.height) != (knownWidth, knownHeight) || pending == Some(false) || seen == 0;
      var damage: Option<seq<Rect>> := None;
      if !full {
        damage := fb.DamageAfter(seen);
        if damage == Some([]) {
          assert DamageFor(before, fb.Model()) == Some([]);
          if announced {
            pending := None;
          }
          return;
        }
      }
      assert damage == DamageFor(before, fb.Model()) == DamageFor(Model(), fb.Model());
      var sent := SendUpdate(fb, damage);
      out := out + sent;
    }

    /** The size where it is new, and the rectangles with their pixels, fenced where the
        client can answer. A client that cannot be told the size is disconnected. */
    method SendUpdate(fb: Framebuffer, damage: Option<seq<Rect>>) returns (out: seq<Message>)
      requires fb.Valid() && Readable(fb.Model())
      requires damage == DamageFor(Model(), fb.Model())
      modifies this
      ensures (Model(), out) == Updated(old(Model()), fb.Model())
    {
      DamageInside(Model(), fb.Model());
      ghost var want := RectsFor(Model(), fb.Model());
      hide RectsFor, DamageFor, CutAll, EntriesInside, Sized, AllWithin, Limited, Whole;
      var pieces := TakeLimited(fb, damage.GetOr([Whole(fb.width, fb.height)]));
      assert pieces == CutAll(fb.pixels, want, fb.width, fb.height);
      out := Deliver(pieces, fb.width, fb.height, fb.generation);
    }

    method Deliver(pieces: seq<Piece>, w: u16, h: u16, generation: nat) returns (out: seq<Message>)
      modifies this
      ensures (Model(), out) == Delivered(old(Model()), pieces, w, h, generation)
    {
      out := [];
      if (w, h) != (knownWidth, knownHeight) {
        knownWidth, knownHeight := w, h;
        if !edsSupported && !desktopSizeSupported {
          closed := true;
          return;
        }
        out := [DesktopSize(w, h)];
      }
      out := out + [Update(pieces, fenceSupported)];
      if fenceSupported {
        fenceOutstanding := true;
      }
      seen := generation;
      pending := None;
    }

    /** The pixels of the rectangles, of one bounding box past the limit. */
    method TakeLimited(fb: Framebuffer, rects: seq<Rect>) returns (pieces: seq<Piece>)
      requires fb.Valid() && AllWithin(Limited(rects), 0, 0, fb.width, fb.height)
      ensures pieces == CutAll(fb.pixels, Limited(rects), fb.width, fb.height)
    {
      hide CutAll, Merge, AllWithin;
      if |rects| > MAX_RECTS {
        var one := MergeRects(rects, 1);
        pieces := TakePieces(fb, one);
      } else {
        pieces := TakePieces(fb, rects);
      }
    }

    method Announce() returns (out: seq<Message>)
      modifies this
      ensures Model() == Announced(old(Model())) && out == Announcements(old(Model()))
    {
      out := [];
      if announceCursor {
        out := out + [Announcement];
      }
      announceCursor := false;
      if announceEds {
        out := out + [Announcement];
      }
      announceEds := false;
      if announceAudio {
        out := out + [Announcement];
      }
      announceAudio := false;
    }

    /** The pixels of each rectangle, copied out row by row. */
    method TakePieces(fb: Framebuffer, rects: seq<Rect>) returns (pieces: seq<Piece>)
      requires fb.Valid() && AllWithin(rects, 0, 0, fb.width, fb.height)
      ensures pieces == CutAll(fb.pixels, rects, fb.width, fb.height)
    {
      pieces := [];
      for i := 0 to |rects|
        invariant |pieces| == i
        invariant forall k :: 0 <= k < i ==> pieces[k] == Cut(fb.pixels, rects[k], fb.width, fb.height)
      {
        var r := rects[i];
        var rows := [];
        for row := r.y to r.Bottom()
          invariant |rows| == row - r.y
          invariant forall k :: 0 <= k < |rows| ==> rows[k] == fb.pixels[r.y + k][r.x..r.Right()]
        {
          rows := rows + [fb.pixels[row][r.x..r.Right()]];
        }
        assert rows == Cut(fb.pixels, r, fb.width, fb.height).rows;
        pieces := pieces + [Piece(r, rows)];
      }
    }

    /** A FramebufferUpdateRequest: one for everything is not made less by one that is not. */
    method Request(incremental: bool)
      modifies this
      ensures Model() == Requested(old(Model()), incremental)
    {
      pending := Some(if pending == Some(false) then false else incremental);
    }

    /** The client's answer to a fence. */
    method Echo()
      modifies this
      ensures Model() == Echoed(old(Model()))
    {
      fenceOutstanding := false;
    }
  }

  function Requested(s: Session, incremental: bool): Session {
    s.(pending := Some(if s.pending == Some(false) then false else incremental))
  }

  function Echoed(s: Session): Session {
    s.(fenceOutstanding := false)
  }
}
