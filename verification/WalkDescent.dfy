/** How a walk goes down on a link that stays behind, by whatever lag, and how long it waits for a
    queue to drain (src/walk.rs). */
module WalkDescent {
  import opened Options
  import opened QualityWalks
  import opened WalkInvariants
  import opened WalkRecovery

  /** What the walk has left to give up, quality and frames. */
  function ToGive(w: Walk): nat
    requires w.floor <= w.quality && w.slow <= SLOW_MAX
  {
    (w.quality - w.floor) + (SLOW_MAX - w.slow)
  }

  /** When the next step down is due at the latest, with verdicts of `lag` at most `d` apart. */
  function ReadyDown(w: Walk, t: Instant, d: Duration, lag: Duration): Instant {
    Max(Max(t, HeldTo(w)) + (if w.verdicts % 8 != 0 then d else 2 * d),
        w.changedAt.GetOr(0) + SECOND + d)
    + (if Draining(w, lag) then SECOND + 2 * d else 0)
  }

  /** The time `n` steps down take at most. */
  function Descent(n: nat, d: Duration): Duration {
    if n == 0 then 0 else SECOND + 3 * d + Descent(n - 1, d)
  }

  lemma {:induction false} DescentGrows(m: nat, n: nat, d: Duration)
    requires m <= n
    ensures Descent(m, d) <= Descent(n, d)
    decreases n
  {
    if m == n {
    } else {
      DescentGrows(m, n - 1, d);
    }
  }

  /** When the walk is at its floor and slowest at the latest. */
  function DeadlineDown(w: Walk, t: Instant, d: Duration, lag: Duration): Instant
    requires w.floor <= w.quality && w.slow <= SLOW_MAX && ToGive(w) > 0
  {
    ReadyDown(w, t, d, lag) + Descent(ToGive(w) - 1, d)
  }

  /** With anything left, a step down gives up some of it and takes none back. */
  lemma GiveUpGives(w: Walk, lag: Duration, now: Instant, soon: bool)
    requires Inv(w, now) && w.heldUntil.None?
    ensures var (v, moved) := GiveUp(w, lag, now, soon);
            && w.floor <= v.quality <= w.quality && w.slow <= v.slow <= SLOW_MAX
            && (ToGive(w) > 0 ==> moved && ToGive(v) < ToGive(w))
            && v.steppedOn == Some(lag) && v.changedAt == w.changedAt && v.heldUntil == w.heldUntil
            && v.verdicts == w.verdicts
  {}

  /** A second verdict behind among four, the latest among them. */
  lemma TwoBehind(before: nat)
    requires before < 16
    ensures var after := (2 * before + 1) % 16;
            after % 8 != 0 && (before % 8 != 0 ==> BehindCount(after) >= BEHIND_FRAMES)
  {
    var after := (2 * before + 1) % 16;
    assert after % 2 == 1;
    if before % 8 != 0 {
      assert before % 8 in {1, 2, 3, 4, 5, 6, 7};
      assert after == (2 * (before % 8) + 1);
    }
  }

  /** What a verdict behind does once counted: waits out its cooldown, waits once for the queue
      to drain, or steps down. */
  lemma BehindActed(n: Walk, lag: Duration, now: Instant, o: Outcome)
    requires Inv(n, now) && n.heldUntil.None? && n.clear.None?
    requires o == Acted(n, true, lag, now)
    ensures o.walk.heldUntil.None? && o.walk.floor == n.floor
    ensures n.floor <= o.walk.quality <= n.quality && n.slow <= o.walk.slow <= SLOW_MAX
    ensures ToGive(n) > 0 ==>
              || (o.walk == n && (BehindCount(n.verdicts) < BEHIND_FRAMES || now < n.changedAt.GetOr(0) + SECOND))
              || (Draining(n, lag) && o.walk == n.(steppedOn := Some(lag), changedAt := Some(now)))
              || (ToGive(o.walk) < ToGive(n) && o.walk.changedAt == Some(now) && o.walk.steppedOn == Some(lag))
  {
    hide GiveUp, TakeBack, Doubled, BehindCount, Climbing;
    if n.changedAt.None? || Elapsed(n.changedAt.value, now) >= Cooldown(n, true, lag) {
      GiveUpGives(n, lag, now, n.changedAt.Some? && Elapsed(n.changedAt.value, now) < ADJUST_COOLDOWN);
    }
  }

  predicate LagsBy(v: Verdict, lag: Duration) {
    v.Worst() == lag && v.Behind()
  }

  lemma NothingDrainsTwice(w: Walk, lag: Duration)
    requires w.steppedOn == Some(lag)
    ensures !Draining(w, lag)
  {}

  lemma DescentStep(n: nat, d: Duration)
    requires n > 0
    ensures Descent(n, d) == SECOND + 3 * d + Descent(n - 1, d)
  {}

  /** A step down made: the next is due within a second and two verdicts. */
  lemma MoveKeepsDown(w: Walk, x: Walk, t: Instant, now: Instant, d: Duration, lag: Duration)
    requires w.floor <= w.quality && w.slow <= SLOW_MAX && x.floor <= x.quality && x.slow <= SLOW_MAX
    requires 0 < ToGive(x) < ToGive(w) && t <= now <= t + d
    requires x.heldUntil.None? && x.steppedOn == Some(lag) && x.changedAt == Some(now)
    ensures DeadlineDown(x, now, d, lag) <= DeadlineDown(w, t, d, lag)
  {
    NothingDrainsTwice(x, lag);
    DescentStep(ToGive(w) - 1, d);
    DescentGrows(ToGive(x) - 1, ToGive(w) - 2, d);
    hide Descent, Draining;
    assert ReadyDown(x, now, d, lag) <= now + SECOND + 2 * d;
  }

  /** A verdict waited out, or a queue left to drain: the next step down is due no later. */
  lemma WaitKeepsDown(w: Walk, x: Walk, t: Instant, now: Instant, d: Duration, lag: Duration)
    requires Inv(w, t) && t <= now <= t + d && !Held(w, now)
    requires x.heldUntil.None? && x.verdicts % 8 != 0
    requires
      || (x.changedAt == w.changedAt && x.steppedOn == w.steppedOn
          && (w.verdicts % 8 == 0 || now < w.changedAt.GetOr(0) + SECOND))
      || (Draining(w, lag) && x.steppedOn == Some(lag) && x.changedAt == Some(now))
    ensures ReadyDown(x, now, d, lag) <= ReadyDown(w, t, d, lag)
  {
    if x.steppedOn == Some(lag) {
      NothingDrainsTwice(x, lag);
    } else {
      assert Draining(x, lag) == Draining(w, lag);
    }
  }

  lemma BehindVerdict(w: Walk, v: Verdict, t: Instant, now: Instant, d: Duration, lag: Duration)
    requires Inv(w, t) && t <= now <= t + d && LagsBy(v, lag) && !Held(w, now)
    ensures var o := Acted(Counted(w, v, now), v.Behind(), v.Worst(), now);
            && w.floor == o.walk.floor
            && w.floor <= o.walk.quality <= w.quality && w.slow <= o.walk.slow <= SLOW_MAX
            && (0 < ToGive(w) && 0 < ToGive(o.walk) ==>
                  DeadlineDown(o.walk, now, d, lag) <= DeadlineDown(w, t, d, lag))
  {
    var n := Counted(w, v, now);
    var o := Acted(n, v.Behind(), v.Worst(), now);
    NotedInv(w, v.Behind(), v.Worst(), v.Queued(), t, now);
    assert n == w.(heldUntil := None, verdicts := (2 * w.verdicts + 1) % 16, clear := None);
    TwoBehind(w.verdicts);
    BehindActed(n, lag, now, o);
    assert Draining(n, lag) == Draining(w, lag);
    hide Acted, Noted, Descent, BehindCount, Inv, ReadyDown, Draining;
    if 0 < ToGive(w) && 0 < ToGive(o.walk) {
      if ToGive(o.walk) < ToGive(n) {
        MoveKeepsDown(w, o.walk, t, now, d, lag);
      } else {
        WaitKeepsDown(w, o.walk, t, now, d, lag);
      }
    }
  }

  /** The calls are all verdicts of the one lag, behind by it, none later than `d` after the one
      before. */
  predicate BehindCalls(w: Walk, calls: seq<TimedCall>, t: Instant, d: Duration, lag: Duration)
    decreases |calls|
  {
    calls != [] ==>
      && t <= calls[0].now <= t + d
      && VerdictOf(w, calls[0]).Some? && LagsBy(VerdictOf(w, calls[0]).value, lag)
      && BehindCalls(Step(w, calls[0]).walk, calls[1..], calls[0].now, d, lag)
  }

  lemma SameDown(w: Walk, c: TimedCall, t: Instant, d: Duration, lag: Duration)
    requires w.floor <= w.quality && w.slow <= SLOW_MAX
    ensures 0 < ToGive(w) ==> DeadlineDown(Measured(w, c), t, d, lag) == DeadlineDown(w, t, d, lag)
  {
    hide Descent, Popped;
  }

  lemma HeldDown(w: Walk, t: Instant, now: Instant, d: Duration, lag: Duration)
    requires Inv(w, t) && t <= now && Held(w, now)
    ensures ReadyDown(w, now, d, lag) == ReadyDown(w, t, d, lag)
  {}

  lemma BehindCall(w: Walk, c: TimedCall, t: Instant, d: Duration, lag: Duration)
    requires Inv(w, t) && t <= c.now <= t + d
    requires VerdictOf(w, c).Some? && LagsBy(VerdictOf(w, c).value, lag)
    ensures var o := Step(w, c);
            && Inv(o.walk, c.now)
            && w.floor == o.walk.floor
            && o.walk.quality <= w.quality && w.slow <= o.walk.slow
            && (0 < ToGive(w) && 0 < ToGive(o.walk) ==>
                  DeadlineDown(o.walk, c.now, d, lag) <= DeadlineDown(w, t, d, lag))
  {
    StepHears(w, c);
    StepInv(w, c, t);
    var m := Measured(w, c);
    assert Inv(m, t);
    SameDown(w, c, t, d, lag);
    SameDown(w, c, c.now, d, lag);
    hide Acted, Noted, Descent, Step, Popped, Baseline, Queueing;
    if Held(w, c.now) {
      HeldDown(w, t, c.now, d, lag);
    } else {
      BehindVerdict(m, VerdictOf(w, c).value, t, c.now, d, lag);
    }
  }

  lemma DownAhead(w: Walk, t: Instant, d: Duration, lag: Duration)
    requires w.floor <= w.quality && w.slow <= SLOW_MAX && ToGive(w) > 0
    ensures t <= DeadlineDown(w, t, d, lag)
  {
    hide Descent;
  }

  /** One lag that is behind, heard at most `d` apart, brings the walk to its floor and its slowest
      by the deadline, and keeps it there. */
  lemma {:induction false} ReachesTheFloor(w: Walk, calls: seq<TimedCall>, t: Instant, d: Duration, lag: Duration)
    requires Inv(w, t) && BehindCalls(w, calls, t, d, lag)
    requires ToGive(w) > 0 ==> EndOf(calls, t) > DeadlineDown(w, t, d, lag)
    ensures var v := Run(w, calls); v.quality == v.floor == w.floor && v.slow == SLOW_MAX
    decreases |calls|
  {
    hide Step, DeadlineDown, LagsBy;
    if calls == [] {
      if ToGive(w) > 0 {
        DownAhead(w, t, d, lag);
      }
    } else {
      BehindCall(w, calls[0], t, d, lag);
      ReachesTheFloor(Step(w, calls[0]).walk, calls[1..], calls[0].now, d, lag);
    }
  }

  /** The same deadline in the terms a caller has. */
  lemma DownBound(w: Walk, t: Instant, d: Duration, lag: Duration)
    requires Inv(w, t) && ToGive(w) > 0
    ensures DeadlineDown(w, t, d, lag) <= t + KEYFRAME_HOLD + SECOND + 2 * d + Descent(ToGive(w), d)
  {
    DescentStep(ToGive(w), d);
    hide Descent;
  }

  // ----- waiting for a queue to drain

  /** Whether a call is one the walk answers by waiting for its queue to drain. */
  predicate IsDrain(w: Walk, c: TimedCall) {
    && VerdictOf(w, c).Some?
    && !Held(w, c.now)
    && var v := VerdictOf(w, c).value;
       Decide(Counted(Measured(w, c), v, c.now), v.Behind(), v.Worst(), c.now) == Drains
  }

  function Drainings(w: Walk, calls: seq<TimedCall>): nat
    decreases |calls|
  {
    if calls == [] then 0
    else (if IsDrain(w, calls[0]) then 1 else 0) + Drainings(Step(w, calls[0]).walk, calls[1..])
  }

  /** How many times a lag can fall by more than a fifth and still be behind. */
  function DrainsLeft(on: Duration): nat {
    if 4 * on / 5 < BEHIND_BLOCK then 0 else 1 + DrainsLeft(4 * on / 5)
  }

  lemma {:induction false} DrainsLeftGrows(a: Duration, b: Duration)
    requires a <= b
    ensures DrainsLeft(a) <= DrainsLeft(b)
  {
    if 4 * a / 5 < BEHIND_BLOCK {
    } else {
      DrainsLeftGrows(4 * a / 5, 4 * b / 5);
    }
  }

  /** Each wait is on a lag less than four fifths of the one before, and still behind. */
  lemma DrainShrinks(w: Walk, c: TimedCall, t: Instant)
    requires Inv(w, t) && t <= c.now && IsDrain(w, c)
    ensures var v := Step(w, c).walk;
            && w.steppedOn.Some? && v.steppedOn.Some?
            && BEHIND_BLOCK <= v.steppedOn.value
            && 5 * v.steppedOn.value < 4 * w.steppedOn.value
            && Step(w, c).moved.None? && v.quality == w.quality && v.slow == w.slow
  {
    StepHears(w, c);
    hide GiveUp, TakeBack, Doubled, BehindCount, Popped, Baseline, Queueing, Step, Inv;
  }

  lemma NoDrainKeeps(w: Walk, c: TimedCall)
    requires !IsDrain(w, c) && Step(w, c).moved.None? && !TakenAway(w, c)
    ensures Step(w, c).walk.steppedOn == w.steppedOn || Step(w, c).walk.steppedOn.None?
  {
    hide Popped, Baseline, Queueing, BehindCount, Doubled, GiveUp;
    if VerdictOf(w, c).Some? {
      StepHears(w, c);
    }
  }

  /** A step down with nothing left to give up: the walk is where it ends. */
  predicate TakenAway(w: Walk, c: TimedCall) {
    && VerdictOf(w, c).Some?
    && !Held(w, c.now)
    && var v := VerdictOf(w, c).value;
       Decide(Counted(Measured(w, c), v, c.now), v.Behind(), v.Worst(), c.now) == GivesUp
  }

  /** No call of the run steps the walk down. */
  predicate NoStepDown(w: Walk, calls: seq<TimedCall>)
    decreases |calls|
  {
    calls != [] ==>
      !TakenAway(w, calls[0]) && Step(w, calls[0]).moved.None? && NoStepDown(Step(w, calls[0]).walk, calls[1..])
  }

  /** Between two steps a walk waits for its queue to drain only so often: as often as the
      lag it stepped on can fall by more than a fifth. */
  lemma {:induction false} DrainsAreFinite(w: Walk, calls: seq<TimedCall>, t: Instant)
    requires Inv(w, t) && Ordered(calls, t) && NoStepDown(w, calls)
    ensures Drainings(w, calls) <= (if w.steppedOn.Some? then DrainsLeft(w.steppedOn.value) else 0)
    decreases |calls|
  {
    hide Step, IsDrain, TakenAway, DrainsLeft;
    if calls == [] {
    } else {
      var v := Step(w, calls[0]).walk;
      StepInv(w, calls[0], t);
      DrainsAreFinite(v, calls[1..], calls[0].now);
      if IsDrain(w, calls[0]) {
        DrainShrinks(w, calls[0], t);
        DrainCounts(v.steppedOn.value, w.steppedOn.value);
      } else {
        NoDrainKeeps(w, calls[0]);
      }
    }
  }

  lemma DrainCounts(now: Duration, before: Duration)
    requires BEHIND_BLOCK <= now && 5 * now < 4 * before
    ensures 1 + DrainsLeft(now) <= DrainsLeft(before)
  {
    DrainsLeftGrows(now, 4 * before / 5);
  }
}
