/** How a walk comes back up on a link that keeps up, and goes down on one that does not
    (src/walk.rs). */
module WalkRecovery {
  import opened Options
  import opened QualityWalks
  import opened WalkInvariants

  /** What a verdict says, as far as the walk listens to it. */
  datatype Verdict = Verdict(blocked: Duration, lag: Option<Duration>)
  {
    function Worst(): Duration { Max(lag.GetOr(0), blocked) }

    predicate Behind() { IsBehind(blocked, lag.GetOr(0)) }

    /** Not behind, nor between the two thresholds. */
    predicate Clear() { !Behind() && Worst() <= LAG_CLEAR }

    function Queued(): Option<Duration> {
      if lag.Some? then Some(Max(lag.value, blocked)) else None
    }
  }

  /** The verdict a call brings the walk, if it is one the walk hears. */
  function VerdictOf(w: Walk, c: TimedCall): Option<Verdict> {
    match c.call
    case Fenced(took, verdict) =>
      if w.lagAware && verdict
      then Some(Verdict(0, Some(Queueing(WithDelivery(w, took, c.now).recent, took)))) else None
    case Written(blocked, fenced) =>
      if fenced && w.lagAware then None else Some(Verdict(blocked, None))
    case Observed(blocked, lag) => Some(Verdict(blocked, if w.lagAware then Some(lag) else None))
    case _ => None
  }

  /** The walk with the call's delivery kept, where it has one. */
  function Measured(w: Walk, c: TimedCall): Walk {
    if c.call.Fenced? && w.lagAware then WithDelivery(w, c.call.took, c.now) else w
  }

  predicate Held(w: Walk, now: Instant) {
    w.heldUntil.Some? && now < w.heldUntil.value
  }

  function Counted(w: Walk, v: Verdict, now: Instant): Walk {
    Noted(w, v.Behind(), v.Worst(), v.Queued(), now)
  }

  lemma StepHears(w: Walk, c: TimedCall)
    requires VerdictOf(w, c).Some?
    ensures var v := VerdictOf(w, c).value;
            var m := Measured(w, c);
            Step(w, c) == if Held(w, c.now) then Outcome(m, None)
                          else Acted(Counted(m, v, c.now), v.Behind(), v.Worst(), c.now)
  {
    hide Acted, Noted, Baseline, Popped, Queueing, IsBehind;
  }

  // ----- recovery

  /** How far the walk is from the ceiling with no frames given up. */
  function Remaining(w: Walk): nat
    requires w.quality <= w.ceiling
  {
    w.slow + (w.ceiling - w.quality)
  }

  /** How long the clear frames still to come may take, at most `d` apart. */
  function FramesLeft(count: nat, d: Duration): Duration {
    if count >= 4 then 0 else if count == 3 then d else if count == 2 then 2 * d else 3 * d
  }

  function HeldTo(w: Walk): Instant {
    w.heldUntil.GetOr(0)
  }

  /** When the next step up is due at the latest, but for a refusal, with clear verdicts
      at most `d` apart from `t`. */
  function ReadyUp(w: Walk, t: Instant, d: Duration): Instant {
    match w.clear
    case None => Max(t, HeldTo(w)) + SECOND + 4 * d
    case Some(run) =>
      Max(Max(run.since, w.changedAt.GetOr(0)) + SECOND + d, t + FramesLeft(run.count, d))
  }

  /** When a refusal's hold is over. */
  function CapUntil(w: Walk): Instant {
    if w.refused.Some? then w.refused.value.at + REFUSAL_HOLD else 0
  }

  /** The time `n` steps up take at most. */
  function Climb(n: nat, d: Duration): Duration {
    if n == 0 then 0 else SECOND + 5 * d + Climb(n - 1, d)
  }

  lemma {:induction false} ClimbGrows(m: nat, n: nat, d: Duration)
    requires m <= n
    ensures Climb(m, d) <= Climb(n, d)
    decreases n
  {
    if m == n {
    } else {
      ClimbGrows(m, n - 1, d);
    }
  }

  /** When the walk is back at its ceiling at the latest. */
  function Deadline(w: Walk, t: Instant, d: Duration): Instant
    requires w.quality <= w.ceiling && Remaining(w) > 0
  {
    Max(ReadyUp(w, t, d), CapUntil(w) + d) + Climb(Remaining(w) - 1, d)
  }

  /** A step up moves frames before quality, each by at least one. */
  lemma TakeBackClimbs(w: Walk, now: Instant)
    requires Inv(w, now)
    ensures var (v, moved) := TakeBack(w, now);
            && (moved ==> (v.slow < w.slow && v.quality == w.quality)
                          || (v.slow == w.slow == 0 && w.quality < v.quality <= w.ceiling))
            && (!moved ==> v.slow == w.slow == 0 && v.quality == w.quality
                           && (w.quality < w.ceiling ==> v.refused == w.refused && now < CapUntil(w)))
            && v.clear == w.clear && v.changedAt == w.changedAt && v.heldUntil == w.heldUntil
            && (v.refused == w.refused || v.refused.None?)
  {}

  /** A clear verdict that moves the dial: what is left falls, in lexicographic order of
      the frames given up and the quality short of the ceiling. */
  predicate ClimbsOrStands(w: Walk, o: Outcome) {
    if o.moved.Some?
    then (o.walk.slow < w.slow && o.walk.quality == w.quality)
         || (o.walk.slow == w.slow == 0 && w.quality < o.walk.quality <= w.ceiling)
    else o.walk.slow == w.slow && o.walk.quality == w.quality
  }

  lemma ClearStands(n: Walk, v: Verdict, now: Instant, o: Outcome)
    requires Inv(n, now) && n.heldUntil.None? && v.Clear() && n.clear.Some?
    requires o == Acted(n, v.Behind(), v.Worst(), now)
    ensures ClimbsOrStands(n, o) && (o.walk.refused == n.refused || o.walk.refused.None?)
    ensures o.moved.Some? ==> o.walk.clear.None? && o.walk.heldUntil.None?
    ensures o.moved.None? ==>
              && o.walk.clear == n.clear && o.walk.changedAt == n.changedAt && o.walk.heldUntil.None?
              && (n.clear.value.count >= CLEAR_FRAMES && n.quality < n.ceiling + n.slow ==>
                    now < Max(n.clear.value.since, n.changedAt.GetOr(0)) + SECOND
                    || (n.slow == 0 && now < CapUntil(n) && o.walk.refused == n.refused))
  {
    hide TakeBack, GiveUp, BehindCount, Doubled, Draining;
    TakeBackClimbs(n, now);
  }

  /** A clear verdict counted: the run it makes is due no later than the one before. */
  lemma CountedClear(w: Walk, v: Verdict, t: Instant, now: Instant, d: Duration)
    requires Inv(w, t) && t <= now <= t + d && v.Clear()
    ensures var n := Counted(w, v, now);
            && n == w.(heldUntil := None, verdicts := n.verdicts, clear := n.clear)
            && n.clear.Some?
            && Max(n.clear.value.since, w.changedAt.GetOr(0)) + SECOND + d <= ReadyUp(w, t, d)
            && (n.clear.value.count < CLEAR_FRAMES ==> ReadyUp(n, now, d) <= ReadyUp(w, t, d))
            && (n.clear.value.count >= CLEAR_FRAMES ==> ReadyUp(n, now, d) <= Max(ReadyUp(w, t, d), now))
  {}

  lemma ClimbStep(n: nat, d: Duration)
    requires n > 0
    ensures Climb(n, d) == SECOND + 5 * d + Climb(n - 1, d)
  {}

  lemma SinceReady(w: Walk, t: Instant, d: Duration)
    ensures t <= ReadyUp(w, t, d)
  {}

  /** A step up made: the next is due within a second and five frames. */
  lemma MoveKeepsDeadline(w: Walk, x: Walk, t: Instant, now: Instant, d: Duration)
    requires w.quality <= w.ceiling && x.quality <= x.ceiling
    requires 0 < Remaining(x) < Remaining(w) && t <= now <= t + d
    requires x.clear.None? && x.heldUntil.None? && CapUntil(x) <= CapUntil(w)
    ensures Deadline(x, now, d) <= Deadline(w, t, d)
  {
    SinceReady(w, t, d);
    ClimbStep(Remaining(w) - 1, d);
    ClimbGrows(Remaining(x) - 1, Remaining(w) - 2, d);
    hide Climb;
    assert ReadyUp(x, now, d) == now + SECOND + 4 * d;
  }

  /** A clear verdict keeps the deadline, whatever comes of it. */
  lemma ClearVerdict(w: Walk, v: Verdict, t: Instant, now: Instant, d: Duration)
    requires Inv(w, t) && t <= now <= t + d && v.Clear()
    ensures var o := Acted(Counted(w, v, now), v.Behind(), v.Worst(), now);
            && ClimbsOrStands(w, o)
            && o.walk.ceiling == w.ceiling
            && (0 < Remaining(w) && 0 < Remaining(o.walk) ==> Deadline(o.walk, now, d) <= Deadline(w, t, d))
  {
    var n := Counted(w, v, now);
    var o := Acted(n, v.Behind(), v.Worst(), now);
    CountedClear(w, v, t, now, d);
    NotedInv(w, v.Behind(), v.Worst(), v.Queued(), t, now);
    ClearStands(n, v, now, o);
    hide Acted, Noted, Climb;
    if 0 < Remaining(w) && 0 < Remaining(o.walk) {
      if o.moved.Some? {
        MoveKeepsDeadline(w, o.walk, t, now, d);
      } else {
        assert ReadyUp(o.walk, now, d) == ReadyUp(n, now, d);
      }
    }
  }

  /** The calls are all clear verdicts, none later than `d` after the one before. */
  predicate ClearCalls(w: Walk, calls: seq<TimedCall>, t: Instant, d: Duration)
    decreases |calls|
  {
    calls != [] ==>
      && t <= calls[0].now <= t + d
      && VerdictOf(w, calls[0]).Some? && VerdictOf(w, calls[0]).value.Clear()
      && ClearCalls(Step(w, calls[0]).walk, calls[1..], calls[0].now, d)
  }

  lemma ClearCall(w: Walk, c: TimedCall, t: Instant, d: Duration)
    requires Inv(w, t) && t <= c.now <= t + d
    requires VerdictOf(w, c).Some? && VerdictOf(w, c).value.Clear()
    ensures var o := Step(w, c);
            && Inv(o.walk, c.now)
            && ClimbsOrStands(w, o)
            && o.walk.ceiling == w.ceiling
            && (0 < Remaining(w) && 0 < Remaining(o.walk) ==> Deadline(o.walk, c.now, d) <= Deadline(w, t, d))
  {
    StepHears(w, c);
    StepInv(w, c, t);
    var m := Measured(w, c);
    assert Inv(m, t);
    hide Acted, Noted, Inv, Climb, Step, Popped, Baseline, Queueing;
    if Held(w, c.now) {
      HeldReady(w, t, c.now, d);
    } else {
      ClearVerdict(m, VerdictOf(w, c).value, t, c.now, d);
    }
    assert 0 < Remaining(w) ==> Deadline(m, t, d) == Deadline(w, t, d) by { SameDeadline(w, c, t, d); }
    assert 0 < Remaining(w) && Held(w, c.now) ==> Deadline(m, c.now, d) == Deadline(w, c.now, d) by {
      SameDeadline(w, c, c.now, d);
    }
  }

  lemma SameDeadline(w: Walk, c: TimedCall, t: Instant, d: Duration)
    requires w.quality <= w.ceiling
    ensures 0 < Remaining(w) ==> Deadline(Measured(w, c), t, d) == Deadline(w, t, d)
  {
    hide Climb, Popped;
  }

  lemma HeldReady(w: Walk, t: Instant, now: Instant, d: Duration)
    requires Inv(w, t) && t <= now && Held(w, now)
    ensures ReadyUp(w, now, d) == ReadyUp(w, t, d)
  {}

  /** Clear verdicts at most `d` apart bring the frames and the quality back by the
      deadline, and once back they stay. */
  lemma {:induction false} Recovers(w: Walk, calls: seq<TimedCall>, t: Instant, d: Duration)
    requires Inv(w, t) && ClearCalls(w, calls, t, d)
    requires Remaining(w) > 0 ==> EndOf(calls, t) > Deadline(w, t, d)
    ensures var v := Run(w, calls); v.slow == 0 && v.quality == v.ceiling == w.ceiling
    decreases |calls|
  {
    hide Step, Deadline;
    if calls == [] {
      if Remaining(w) > 0 {
        DeadlineAhead(w, t, d);
      }
    } else {
      ClearCall(w, calls[0], t, d);
      Recovers(Step(w, calls[0]).walk, calls[1..], calls[0].now, d);
    }
  }

  lemma DeadlineAhead(w: Walk, t: Instant, d: Duration)
    requires w.quality <= w.ceiling && Remaining(w) > 0
    ensures t <= Deadline(w, t, d)
  {
    hide Climb;
    SinceReady(w, t, d);
  }

  /** The deadline in the terms a caller has: a keyframe's hold, the refusal's where
      there is one, and a second and five frames for every step there is to climb. */
  lemma DeadlineBound(w: Walk, t: Instant, d: Duration)
    requires Inv(w, t) && Remaining(w) > 0
    ensures Deadline(w, t, d)
              <= t + KEYFRAME_HOLD + (if w.refused.Some? then REFUSAL_HOLD else 0) + Climb(Remaining(w), d)
  {
    ClimbStep(Remaining(w), d);
    hide Climb;
  }

  /** Bounded recovery: from any state a session can bring a walk to, clear verdicts at
      most `d` apart bring it to its ceiling at its full frame rate within the bound. */
  lemma EveryWalkRecovers(ceiling: nat, frame: Duration, adaptive: bool, before: seq<TimedCall>,
                          calls: seq<TimedCall>, t: Instant, d: Duration)
    requires Ordered(before, t)
    requires ClearCalls(Run(New(ceiling, frame, adaptive), before), calls, EndOf(before, t), d)
    requires var w := Run(New(ceiling, frame, adaptive), before);
             w.quality <= w.ceiling ==>
               EndOf(calls, EndOf(before, t))
                 > EndOf(before, t) + KEYFRAME_HOLD + REFUSAL_HOLD + Climb(Remaining(w), d)
    ensures var v := Run(Run(New(ceiling, frame, adaptive), before), calls);
            v.slow == 0 && v.quality == Max(QUALITY_MIN, Min(ceiling, QUALITY_MAX))
  {
    hide Climb, Deadline, ClearCalls, Step;
    var w := Run(New(ceiling, frame, adaptive), before);
    NewInv(ceiling, frame, adaptive, t);
    RunInv(New(ceiling, frame, adaptive), before, t);
    RunConstants(New(ceiling, frame, adaptive), before);
    if Remaining(w) > 0 {
      DeadlineBound(w, EndOf(before, t), d);
    }
    Recovers(w, calls, EndOf(before, t), d);
  }
}
