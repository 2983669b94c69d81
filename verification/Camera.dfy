/** The client's camera: a session that drops samples rather than fall behind, and a thread
    that decodes them, joined by a queue (src/camera.rs).
 */
module Cameras {
  import opened Options

  const QUEUE_DEPTH: nat := 8

  datatype Signal = Start | Stop | KeyframeWanted | Failed

  /** An access unit, by its place in the client's sequence. */
  datatype Sample = Sample(index: nat, keyframe: bool)

  /** What the decoder makes of a unit: nothing yet, a picture of the size plugged, one of
      another size, or an error. */
  datatype Outcome = Nothing | Picture | WrongSize | Refused

  /** What the session and the thread share: the queue, how many are in it as counted, and
      the signals for the session to send on. The thread's end of the queue may be gone. */
  datatype Shared = Shared(queued: nat, channel: seq<Sample>, alive: bool, signals: seq<Signal>)

  /** Where the thread's stream stands. */
  datatype Stream = Stream(keyframeOwed: bool, sizeReported: bool, streaming: bool, picture: Option<Sample>)

  /** One access unit handed to the thread, or dropped: whether there is a gap then. */
  function Offered(gap: bool, s: Shared, unit: Sample): (bool, Shared) {
    if !unit.keyframe && gap then (gap, s)
    else if s.queued >= QUEUE_DEPTH then
      (true, s.(signals := if unit.keyframe || !gap then s.signals + [KeyframeWanted] else s.signals))
    else if !s.alive then (false, s)
    else (false, s.(queued := s.queued + 1, channel := s.channel + [unit]))
  }

  predicate Skips(f: Stream, unit: Sample) {
    f.sizeReported || (f.keyframeOwed && !unit.keyframe)
  }

  /** A unit decoded, unless it is to be skipped. */
  function Fed(f: Stream, s: Shared, unit: Sample, outcome: Outcome): (Stream, Shared) {
    if Skips(f, unit) then (f, s)
    else
      match outcome
      case Nothing => (f, s)
      case WrongSize => (f.(sizeReported := true), s.(signals := s.signals + [Failed]))
      case Picture => (f.(keyframeOwed := false, picture := Some(unit)), s)
      case Refused => (f.(keyframeOwed := true), s.(signals := s.signals + [KeyframeWanted]))
  }

  /** The oldest unit off the queue. */
  function Popped(s: Shared): Shared
    requires s.channel != []
  {
    s.(queued := if s.queued > 0 then s.queued - 1 else 0, channel := s.channel[1..])
  }

  /** The desktop opens the camera or closes it. */
  function Streamed(f: Stream, s: Shared, on: bool): (Stream, Shared) {
    if on == f.streaming then (f, s)
    else (f.(streaming := on, keyframeOwed := f.keyframeOwed || on),
          s.(signals := s.signals + [if on then Start else Stop]))
  }

  class Link {
    var queued: nat
    var channel: seq<Sample>
    var alive: bool
    var signals: seq<Signal>

    ghost function Model(): Shared
      reads this
    {
      Shared(queued, channel, alive, signals)
    }

    constructor ()
      ensures Model() == Shared(0, [], true, [])
    {
      queued, channel, alive, signals := 0, [], true, [];
    }

    /** Whether the unit went into the queue. */
    method Send(unit: Sample) returns (ok: bool)
      modifies `channel
      ensures ok == alive && channel == if ok then old(channel) + [unit] else old(channel)
    {
      if alive {
        channel := channel + [unit];
      }
      ok := alive;
    }
  }

  /** The session's end. */
  class Camera {
    const link: Link
    var gap: bool

    constructor (link: Link)
      ensures this.link == link && !gap
    {
      this.link, gap := link, false;
    }

    method Offer(unit: Sample)
      modifies this, link
      ensures (gap, link.Model()) == Offered(old(gap), old(link.Model()), unit)
    {
      if !unit.keyframe && gap {
        return;
      }
      if link.queued >= QUEUE_DEPTH {
        if unit.keyframe || !gap {
          link.signals := link.signals + [KeyframeWanted];
        }
        gap := true;
        return;
      }
      gap := false;
      link.queued := link.queued + 1;
      var ok := link.Send(unit);
      if !ok {
        link.queued := link.queued - 1;
      }
    }
  }

  /** The thread's end. */
  class Feed {
    const link: Link
    var keyframeOwed: bool
    var sizeReported: bool
    var streaming: bool
    var picture: Option<Sample>

    ghost function Model(): Stream
      reads this
    {
      Stream(keyframeOwed, sizeReported, streaming, picture)
    }

    constructor (link: Link)
      ensures this.link == link && Model() == Stream(true, false, false, None)
    {
      this.link := link;
      keyframeOwed, sizeReported, streaming, picture := true, false, false, None;
    }

    /** Decode one unit, of which the decoder would make `outcome`. True where
        there is one to deliver. */
    method Take(unit: Sample, outcome: Outcome) returns (deliver: bool)
      modifies this, link`signals
      ensures (Model(), link.Model()) == Fed(old(Model()), old(link.Model()), unit, outcome)
      ensures deliver <==>
                streaming && outcome == Picture && !old(sizeReported) && (unit.keyframe || !old(keyframeOwed))
    {
      if sizeReported || (keyframeOwed && !unit.keyframe) {
        return false;
      }
      match outcome
      case Nothing => deliver := false;
      case WrongSize =>
        sizeReported := true;
        link.signals := link.signals + [Failed];
        deliver := false;
      case Picture =>
        keyframeOwed := false;
        picture := Some(unit);
        deliver := streaming;
      case Refused =>
        keyframeOwed := true;
        link.signals := link.signals + [KeyframeWanted];
        deliver := false;
    }

    /** A sample off the queue. */
    method OnSample(outcome: Outcome) returns (deliver: bool)
      requires link.channel != [] && link.queued > 0
      modifies this, link
      ensures (Model(), link.Model())
           == Fed(old(Model()), Popped(old(link.Model())), old(link.channel[0]), outcome)
      ensures deliver <==>
                && old(streaming) && outcome == Picture && !old(sizeReported)
                && (old(link.channel[0]).keyframe || !old(keyframeOwed))
    {
      var unit := link.channel[0];
      link.channel := link.channel[1..];
      link.queued := link.queued - 1;
      deliver := Take(unit, outcome);
    }

    method StateChanged(on: bool)
      modifies this, link`signals
      ensures (Model(), link.Model()) == Streamed(old(Model()), old(link.Model()), on)
    {
      if on == streaming {
        return;
      }
      streaming := on;
      if on {
        keyframeOwed := true;
      }
      link.signals := link.signals + [if on then Start else Stop];
    }
  }
}

/** What the camera's two ends keep together (src/camera.rs). */
module CameraProofs {
  import opened Options
  import opened Cameras

  datatype Deed = Deed(sample: Sample, outcome: Outcome)

  /** Both ends, with the place of the client's next unit, and the record of what was taken
      off the queue and of what was given to the decoder. */
  datatype Pipe = Pipe(
    gap: bool,
    next: nat,
    shared: Shared,
    stream: Stream,
    taken: seq<Sample>,
    decoded: seq<Deed>)

  function Plugged(): Pipe {
    Pipe(false, 0, Shared(0, [], true, []), Stream(true, false, false, None), [], [])
  }

  datatype Event =
    | Sends(keyframe: bool)
    | Takes(outcome: Outcome)
    | Opens(on: bool)
    | Dies

  predicate Enabled(p: Pipe, e: Event) {
    e.Takes? ==> p.shared.channel != []
  }

  function Next(p: Pipe, e: Event): Pipe
    requires Enabled(p, e)
  {
    match e
    case Sends(keyframe) =>
      var (gap, shared) := Offered(p.gap, p.shared, Sample(p.next, keyframe));
      p.(gap := gap, shared := shared, next := p.next + 1)
    case Takes(outcome) =>
      var unit := p.shared.channel[0];
      var (stream, shared) := Fed(p.stream, Popped(p.shared), unit, outcome);
      p.(stream := stream, shared := shared, taken := p.taken + [unit],
         decoded := if Skips(p.stream, unit) then p.decoded else p.decoded + [Deed(unit, outcome)])
    case Opens(on) =>
      var (stream, shared) := Streamed(p.stream, p.shared, on);
      p.(stream := stream, shared := shared)
    case Dies => p.(shared := p.shared.(alive := false, channel := []))
  }

  /** Every unit that got into the queue, in order. */
  function Flow(p: Pipe): seq<Sample> {
    p.taken + p.shared.channel
  }

  /** A delta unit is there only right behind the unit it was coded against. */
  predicate Unbroken(flow: seq<Sample>) {
    forall i :: 0 < i < |flow| && !flow[i].keyframe ==> flow[i].index == flow[i - 1].index + 1
  }

  predicate Fine(d: Deed) {
    d.outcome == Nothing || d.outcome == Picture
  }

  /** Each delta unit decoded has its immediate predecessor in the client's sequence decoded
      right before it, without error. */
  predicate Continuous(decoded: seq<Deed>) {
    forall i :: 0 <= i < |decoded| && !decoded[i].sample.keyframe ==>
      0 < i && Follows(decoded[i - 1], decoded[i])
  }

  /** A delta unit with its predecessor decoded right before it. */
  predicate ContinuedAt(d: seq<Deed>, j: int) {
    0 < j < |d| && !d[j].sample.keyframe && Follows(d[j - 1], d[j])
  }

  predicate Follows(a: Deed, b: Deed) {
    Fine(a) && b.sample.index == a.sample.index + 1
  }

  /** With no keyframe owed, the last unit taken was decoded, and without error. */
  predicate UpToDate(p: Pipe) {
    && p.taken != [] && p.decoded != []
    && Fine(p.decoded[|p.decoded| - 1])
    && p.decoded[|p.decoded| - 1].sample == p.taken[|p.taken| - 1]
  }

  predicate Inv(p: Pipe) {
    && p.shared.queued <= QUEUE_DEPTH
    && (if p.shared.alive then p.shared.queued == |p.shared.channel| else p.shared.channel == [])
    && Unbroken(Flow(p))
    && (p.shared.alive && !p.gap ==>
          if Flow(p) == [] then p.next == 0 else Flow(p)[|Flow(p)| - 1].index + 1 == p.next)
    && Continuous(p.decoded)
    && (!p.stream.keyframeOwed && !p.stream.sizeReported ==> UpToDate(p))
  }

  lemma FlowGrows(flow: seq<Sample>, unit: Sample)
    requires Unbroken(flow)
    requires unit.keyframe || flow == [] || flow[|flow| - 1].index + 1 == unit.index
    ensures Unbroken(flow + [unit])
  {
    var more := flow + [unit];
    forall i | 0 < i < |more| && !more[i].keyframe ensures more[i].index == more[i - 1].index + 1 {
      if i < |flow| {
        assert more[i] == flow[i] && more[i - 1] == flow[i - 1];
      }
    }
  }

  lemma SendsInv(p: Pipe, keyframe: bool)
    requires Inv(p)
    ensures Inv(Next(p, Sends(keyframe)))
  {
    var unit := Sample(p.next, keyframe);
    var q := Next(p, Sends(keyframe));
    hide Continuous;
    if q.shared.channel != p.shared.channel {
      assert Flow(q) == Flow(p) + [unit];
      FlowGrows(Flow(p), unit);
      hide Unbroken;
    } else {
      hide Unbroken;
      assert Flow(q) == Flow(p);
    }
  }

  lemma TakesInv(p: Pipe, outcome: Outcome)
    requires Inv(p) && Enabled(p, Takes(outcome))
    ensures Inv(Next(p, Takes(outcome)))
  {
    var unit := p.shared.channel[0];
    var q := Next(p, Takes(outcome));
    assert Flow(q) == Flow(p);
    var flow, n := Flow(p), |p.taken|;
    assert flow[n] == unit;
    if !Skips(p.stream, unit) && !unit.keyframe {
      assert flow[n - 1] == p.taken[n - 1];
      assert Follows(p.decoded[|p.decoded| - 1], Deed(unit, outcome));
    }
  }

  lemma NextInv(p: Pipe, e: Event)
    requires Inv(p) && Enabled(p, e)
    ensures Inv(Next(p, e))
  {
    match e
    case Sends(keyframe) => SendsInv(p, keyframe);
    case Takes(outcome) => TakesInv(p, outcome);
    case Opens(on) => assert Flow(Next(p, e)) == Flow(p);
    case Dies =>
      var q := Next(p, e);
      assert Flow(q) == p.taken;
      assert forall i :: 0 <= i < |p.taken| ==> Flow(p)[i] == p.taken[i];
  }

  predicate CanRun(p: Pipe, events: seq<Event>)
    decreases |events|
  {
    events == [] || (Enabled(p, events[0]) && CanRun(Next(p, events[0]), events[1..]))
  }

  function Run(p: Pipe, events: seq<Event>): Pipe
    requires CanRun(p, events)
    decreases |events|
  {
    if events == [] then p else Run(Next(p, events[0]), events[1..])
  }

  lemma {:induction false} RunInv(p: Pipe, events: seq<Event>)
    requires Inv(p) && CanRun(p, events)
    ensures Inv(Run(p, events))
    decreases |events|
  {
    hide Inv, Next;
    if events == [] {
    } else {
      NextInv(p, events[0]);
      RunInv(Next(p, events[0]), events[1..]);
    }
  }

  /** Decoder continuity, over every interleaving of the session, the thread and the desktop:
      no delta unit is decoded across a loss. Each stands at the end of an unbroken run of the
      client's sequence, decoded without error from the keyframe that begins it. */
  lemma NeverAcrossALoss(events: seq<Event>, i: nat) returns (k: nat)
    requires CanRun(Plugged(), events)
    requires i < |Run(Plugged(), events).decoded|
    ensures var d := Run(Plugged(), events).decoded;
            && k <= i && d[k].sample.keyframe
            && forall j :: k < j <= i ==> ContinuedAt(d, j)
  {
    RunInv(Plugged(), events);
    k := BackToKeyframe(Run(Plugged(), events).decoded, i);
  }

  lemma {:induction false} BackToKeyframe(d: seq<Deed>, i: nat) returns (k: nat)
    requires Continuous(d) && i < |d|
    ensures k <= i && d[k].sample.keyframe
    ensures forall j :: k < j <= i ==> ContinuedAt(d, j)
    decreases i
  {
    if d[i].sample.keyframe {
      k := i;
    } else {
      assert Follows(d[i - 1], d[i]);
      k := BackToKeyframe(d, i - 1);
    }
  }

  // ----- what is asked of the client

  function Wanted(signals: seq<Signal>): nat {
    if signals == [] then 0
    else Wanted(signals[..|signals| - 1]) + (if signals[|signals| - 1] == KeyframeWanted then 1 else 0)
  }

  /** A gap opens: a unit is lost where none was being dropped. */
  predicate OpensGap(p: Pipe, e: Event)
    requires Enabled(p, e)
  {
    !p.gap && Next(p, e).gap
  }

  /** A keyframe that would have closed a gap is lost to the full queue. */
  predicate LosesKeyframe(p: Pipe, e: Event)
    requires Enabled(p, e)
  {
    e.Sends? && e.keyframe && p.gap && Next(p, e).gap
  }

  /** The decoder refuses a unit. */
  predicate Refuses(p: Pipe, e: Event)
    requires Enabled(p, e)
  {
    e.Takes? && e.outcome == Refused && |Next(p, e).decoded| > |p.decoded|
  }

  function Due(p: Pipe, e: Event): nat
    requires Enabled(p, e)
  {
    if OpensGap(p, e) || LosesKeyframe(p, e) || Refuses(p, e) then 1 else 0
  }

  function DueOver(p: Pipe, events: seq<Event>): nat
    requires CanRun(p, events)
    decreases |events|
  {
    if events == [] then 0 else Due(p, events[0]) + DueOver(Next(p, events[0]), events[1..])
  }

  lemma NextWants(p: Pipe, e: Event)
    requires Enabled(p, e)
    ensures Wanted(Next(p, e).shared.signals) == Wanted(p.shared.signals) + Due(p, e)
  {
    var (before, after) := (p.shared.signals, Next(p, e).shared.signals);
    if after != before {
      assert after[..|after| - 1] == before;
    }
  }

  /** A keyframe is asked for once when a gap opens, once more for each keyframe lost to the
      full queue, and once for each unit refused; and for nothing else. */
  lemma {:induction false} AskedOncePerGap(p: Pipe, events: seq<Event>)
    requires CanRun(p, events)
    ensures Wanted(Run(p, events).shared.signals) == Wanted(p.shared.signals) + DueOver(p, events)
    decreases |events|
  {
    hide Next, Due, Wanted;
    if events == [] {
    } else {
      NextWants(p, events[0]);
      AskedOncePerGap(Next(p, events[0]), events[1..]);
    }
  }

  /** A gap closes on a keyframe that finds room, and on nothing else; the queue is then one
      longer where there is anyone to read it. */
  lemma OnlyAKeyframeClosesAGap(p: Pipe, e: Event)
    requires Inv(p) && Enabled(p, e) && p.gap && !Next(p, e).gap
    ensures e.Sends? && e.keyframe && p.shared.queued < QUEUE_DEPTH
    ensures p.shared.alive ==> Flow(Next(p, e)) == Flow(p) + [Sample(p.next, true)]
  {}

  /** A camera that sent a picture of another size decodes nothing more. */
  lemma {:induction false} AFailedCameraStaysFailed(p: Pipe, events: seq<Event>)
    requires CanRun(p, events) && p.stream.sizeReported
    ensures Run(p, events).stream.sizeReported && Run(p, events).decoded == p.decoded
    decreases |events|
  {
    if events == [] {
    } else {
      AFailedCameraStaysFailed(Next(p, events[0]), events[1..]);
    }
  }
}
