/** What becomes of each unit the client's camera sends, and what the client is told of the
    stream (src/camera.rs).
 */
module CameraLaws {
  import opened Options
  import opened Cameras
  import opened CameraProofs

  /** A unit goes into the queue, at its end, exactly when there is room for it, the thread is
      there and it is a keyframe or none has been lost since one. A unit lost to the full queue
      opens a gap; one dropped in a gap asks for nothing. */
  lemma UnitGoesInWhen(gap: bool, s: Shared, unit: Sample)
    ensures var (after, t) := Offered(gap, s, unit);
            var goes := s.queued < 8 && s.alive && (unit.keyframe || !gap);
            && t.channel == (if goes then s.channel + [unit] else s.channel)
            && t.queued == (if goes then s.queued + 1 else s.queued)
            && (after <==> (gap && !unit.keyframe) || s.queued >= 8)
            && t.signals == (if s.queued >= 8 && (unit.keyframe || !gap) then s.signals + [KeyframeWanted]
                             else s.signals)
            && t.alive == s.alive
  {}

  /** The oldest unit is taken, and decoded exactly when the camera has not failed and it is a
      keyframe or none is owed. */
  lemma UnitIsDecodedWhen(p: Pipe, outcome: Outcome)
    requires Enabled(p, Takes(outcome))
    ensures var (q, unit) := (Next(p, Takes(outcome)), p.shared.channel[0]);
            && q.taken == p.taken + [unit] && q.shared.channel == p.shared.channel[1..]
            && q.decoded == (if !p.stream.sizeReported && (unit.keyframe || !p.stream.keyframeOwed)
                             then p.decoded + [Deed(unit, outcome)] else p.decoded)
  {}

  /** Once a picture has come of a unit the next in the queue is decoded, whatever it is; once the
      decoder has refused one, no delta unit is until a keyframe. */
  lemma DecodingGoesOn(p: Pipe, outcome: Outcome, next: Outcome)
    requires Enabled(p, Takes(outcome)) && |p.shared.channel| >= 2
    requires |Next(p, Takes(outcome)).decoded| > |p.decoded|
    ensures var q := Next(p, Takes(outcome)); Enabled(q, Takes(next))
    ensures var (q, unit) := (Next(p, Takes(outcome)), p.shared.channel[1]);
            && (outcome == Picture ==> Next(q, Takes(next)).decoded == q.decoded + [Deed(unit, next)])
            && (outcome == Picture ==> q.stream.picture == Some(p.shared.channel[0]))
            && (outcome == Refused && !unit.keyframe ==> Next(q, Takes(next)).decoded == q.decoded)
            && (outcome == WrongSize ==> Next(q, Takes(next)).decoded == q.decoded)
    ensures Next(p, Takes(outcome)).shared.signals
         == p.shared.signals + (if outcome == WrongSize then [Failed]
                                else if outcome == Refused then [KeyframeWanted] else [])
  {
    assert Next(p, Takes(outcome)).shared.channel[0] == p.shared.channel[1];
  }

  /** An application that opens the camera is owed a keyframe: no delta unit is decoded for it
      first. */
  lemma OpeningOwesAKeyframe(p: Pipe, outcome: Outcome)
    requires !p.stream.streaming && p.shared.channel != [] && !p.shared.channel[0].keyframe
    ensures var q := Next(p, Opens(true));
            && q.stream.streaming && q.shared == p.shared.(signals := p.shared.signals + [Start])
            && Next(q, Takes(outcome)).decoded == q.decoded
  {}

  // ----- what the client is told

  /** The last the client was told of the stream: that it is open. */
  function ToldOpen(signals: seq<Signal>): bool {
    if signals == [] then false
    else
      var last := signals[|signals| - 1];
      if last == Start then true
      else if last == Stop then false
      else ToldOpen(signals[..|signals| - 1])
  }

  /** How often it has been told that the camera failed. */
  function TimesFailed(signals: seq<Signal>): nat {
    if signals == [] then 0
    else TimesFailed(signals[..|signals| - 1]) + (if signals[|signals| - 1] == Failed then 1 else 0)
  }

  /** Starts and stops take turns, a start first. */
  predicate TakesTurns(signals: seq<Signal>) {
    signals != [] ==>
      var (front, last) := (signals[..|signals| - 1], signals[|signals| - 1]);
      TakesTurns(front) && (last == Start ==> !ToldOpen(front)) && (last == Stop ==> ToldOpen(front))
  }

  predicate Told(p: Pipe) {
    && ToldOpen(p.shared.signals) == p.stream.streaming && TakesTurns(p.shared.signals)
    && TimesFailed(p.shared.signals) == (if p.stream.sizeReported then 1 else 0)
  }

  lemma SignalTells(before: seq<Signal>, signal: Signal)
    ensures var after := before + [signal];
            && ToldOpen(after) == (signal == Start || (signal != Stop && ToldOpen(before)))
            && TimesFailed(after) == TimesFailed(before) + (if signal == Failed then 1 else 0)
            && (TakesTurns(after) <==>
                  && TakesTurns(before)
                  && (signal == Start ==> !ToldOpen(before)) && (signal == Stop ==> ToldOpen(before)))
  {
    assert (before + [signal])[..|before|] == before;
  }

  lemma NextTold(p: Pipe, e: Event)
    requires Enabled(p, e) && Told(p)
    ensures Told(Next(p, e))
  {
    var before := p.shared.signals;
    SignalTells(before, Start);
    SignalTells(before, Stop);
    SignalTells(before, Failed);
    SignalTells(before, KeyframeWanted);
    hide ToldOpen, TakesTurns, TimesFailed;
  }

  lemma {:induction false} RunTold(p: Pipe, events: seq<Event>)
    requires CanRun(p, events) && Told(p)
    ensures Told(Run(p, events))
    decreases |events|
  {
    hide Told, Next, Enabled;
    if events != [] {
      NextTold(p, events[0]);
      RunTold(Next(p, events[0]), events[1..]);
    }
  }

  /** Over every run the client is told of every opening and closing in turn, so that what it was
      told last is how the stream stands; and that its camera failed once, when it has. */
  lemma TheClientIsToldOfTheStream(events: seq<Event>)
    requires CanRun(Plugged(), events)
    ensures var p := Run(Plugged(), events);
            && ToldOpen(p.shared.signals) == p.stream.streaming
            && TakesTurns(p.shared.signals)
            && TimesFailed(p.shared.signals) == (if p.stream.sizeReported then 1 else 0)
  {
    RunTold(Plugged(), events);
    hide Run;
  }
}
