/** What a move of the quality walk is, in numbers, and what holds it off (src/walk.rs). */
module WalkLaws {
  import opened Options
  import opened QualityWalks
  import opened WalkInvariants
  import opened WalkRecovery

  // ----- in numbers

  /** A new walk stands at its ceiling at the full frame rate, with a small first step. */
  lemma NewStandsAtItsCeiling(ceiling: nat, frame: Duration, adaptive: bool)
    ensures var w := New(ceiling, frame, adaptive);
            && w.quality == w.ceiling == (if ceiling < 1 then 1 else if ceiling > 100 then 100 else ceiling)
            && w.floor == (if w.ceiling < 20 then w.ceiling else 20)
            && w.slow == 0 && w.reclaim == 3 && w.lagAware == adaptive && w.frame == frame
  {}

  /** Frames come the frame interval apart, or twice, four times or eight times that. */
  lemma IntervalInNumbers(w: Walk)
    requires w.slow <= 3
    ensures Interval(w) == if w.slow == 0 then w.frame else if w.slow == 1 then 2 * w.frame
                           else if w.slow == 2 then 4 * w.frame else 8 * w.frame
  {
    assert Doubled(w.frame, 1) == 2 * Doubled(w.frame, 0);
    assert w.slow >= 2 ==> Doubled(w.frame, 2) == 2 * Doubled(w.frame, 1);
    assert w.slow >= 3 ==> Doubled(w.frame, 3) == 2 * Doubled(w.frame, 2);
  }

  /** A step down that answers no step up gives up 10 of quality, 20 from a lag of 150 ms and 30
      from one of 400 ms, down to the floor; and a frame interval doubled only on the floor, or
      at such a lag when the last move is not so recent. */
  lemma StepDownInNumbers(w: Walk, lag: Duration, now: Instant, soon: bool)
    requires Inv(w, now)
    requires w.reclaimed.None? || now - w.reclaimed.value.at > 4_000_000_000
    ensures var (v, moved) := GiveUp(w, lag, now, soon);
            var less := if lag < 150_000_000 then 10 else if lag < 400_000_000 then 20 else 30;
            && v.quality == (if w.quality - less < w.floor then w.floor else w.quality - less)
            && v.slow == (if w.slow < 3 && (w.quality == w.floor || (lag >= 400_000_000 && !soon))
                          then w.slow + 1 else w.slow)
            && (moved <==> v.quality < w.quality || v.slow > w.slow)
            && v.refused == w.refused && v.reclaim == 3 && v.reclaimed.None?
  {}

  /** A step down that answers one goes back to the quality before it, and holds the walk under
      the midpoint; the next steps up are small again. */
  lemma StepBackInNumbers(w: Walk, lag: Duration, now: Instant, soon: bool)
    requires Inv(w, now) && w.reclaimed.Some? && now - w.reclaimed.value.at <= 4_000_000_000
    ensures var (v, moved) := GiveUp(w, lag, now, soon);
            var from := w.reclaimed.value.quality;
            && v.quality == from && moved && v.reclaim == 3 && v.reclaimed.None?
            && v.refused == Some(Mark(from + (w.quality - from) / 2, now))
            && v.slow == (if lag >= 400_000_000 && !soon then w.slow + 1 else w.slow)
  {}

  /** The cap on the way up: the ceiling, or a refusal's while it is held. */
  function Cap(w: Walk, now: Instant): nat {
    if w.refused.Some? && (now < w.refused.value.at || now - w.refused.value.at < 15_000_000_000)
    then Min(w.refused.value.quality, w.ceiling) else w.ceiling
  }

  /** A step up takes back one doubling of the interval, or with none to take back 3 of quality,
      then 6, 12 and 24, and no further than the cap; one the cap cuts short is the last of its
      run. */
  lemma StepUpInNumbers(w: Walk, now: Instant)
    requires Inv(w, now)
    ensures var (v, moved) := TakeBack(w, now);
            && (w.slow > 0 ==> moved && v.slow == w.slow - 1 && v.quality == w.quality && v.reclaim == w.reclaim)
            && (w.slow == 0 ==>
                  && v.slow == 0 && (moved <==> w.quality < Cap(w, now))
                  && v.quality == (if !moved then w.quality
                                   else if w.quality + w.reclaim < Cap(w, now) then w.quality + w.reclaim
                                   else Cap(w, now))
                  && (moved ==>
                        && v.reclaimed == Some(Mark(w.quality, now))
                        && v.reclaim == (if v.quality == Cap(w, now) < w.ceiling then 3
                                         else if w.reclaim <= 12 then 2 * w.reclaim else 24)))
  {}

  /** What a call answers is where the walk then stands, and it answers exactly when the walk has
      moved. */
  lemma EveryMoveIsTold(w: Walk, c: TimedCall, t: Instant)
    requires Inv(w, t) && t <= c.now
    ensures var o := Step(w, c);
            && (o.moved.Some? <==> o.walk.quality != w.quality || o.walk.slow != w.slow)
            && (o.moved.Some? ==> o.moved.value == Pace(o.walk.quality, Interval(o.walk)))
  {
    StepNotes(w, c);
    if VerdictOf(w, c).Some? && !Held(w, c.now) {
      var v := VerdictOf(w, c).value;
      var n := Counted(Measured(w, c), v, c.now);
      StepHears(w, c);
      assert Inv(Measured(w, c), t);
      NotedInv(Measured(w, c), v.Behind(), v.Worst(), v.Queued(), t, c.now);
      assert Acted(n, v.Behind(), v.Worst(), c.now) == Step(w, c);
      hide Step, Noted, Popped, Baseline, Queueing, IsBehind, Interval;
      ActedTells(n, v.Behind(), v.Worst(), c.now);
    }
  }

  lemma StepNotes(w: Walk, c: TimedCall)
    ensures VerdictOf(w, c).None? || Held(w, c.now) ==>
              var o := Step(w, c);
              o.moved.None? && o.walk.quality == w.quality && o.walk.slow == w.slow
  {
    hide Acted, Noted, Baseline, Popped, Queueing, IsBehind;
  }

  lemma ActedTells(n: Walk, behind: bool, lag: Duration, now: Instant)
    requires Inv(n, now)
    ensures var o := Acted(n, behind, lag, now);
            && (o.moved.Some? <==> o.walk.quality != n.quality || o.walk.slow != n.slow)
            && (o.moved.Some? ==> o.moved.value == Pace(o.walk.quality, Interval(o.walk)))
  {
    var soon := n.changedAt.Some? && Elapsed(n.changedAt.value, now) < ADJUST_COOLDOWN;
    StepDownTells(n, lag, now, soon);
    StepUpTells(n, now);
    hide Decide, BehindCount, Doubled, GiveUp, TakeBack, Inv;
  }

  lemma StepDownTells(n: Walk, lag: Duration, now: Instant, soon: bool)
    requires Inv(n, now)
    ensures var (v, moved) := GiveUp(n, lag, now, soon);
            && v.frame == n.frame && v.quality <= n.quality && v.slow >= n.slow
            && (moved <==> v.quality < n.quality || v.slow > n.slow)
  {}

  lemma StepUpTells(n: Walk, now: Instant)
    requires Inv(n, now)
    ensures var (v, moved) := TakeBack(n, now);
            && v.frame == n.frame && v.quality >= n.quality && v.slow <= n.slow
            && (moved <==> v.quality > n.quality || v.slow < n.slow)
  {}

  // ----- what a settle and a keyframe hold off

  /** The calls all come before a time. */
  predicate Before(calls: seq<TimedCall>, end: Instant) {
    forall i :: 0 <= i < |calls| ==> calls[i].now < end
  }

  predicate Settled(w: Walk, at: Instant) {
    w.changedAt == Some(at) && w.steppedOn.None? && w.reclaimed.None? && w.climbedAt.None?
  }

  /** For a second after a settle no verdict moves the walk, whatever it says. */
  lemma {:induction false} SettleHoldsTheDial(w: Walk, calls: seq<TimedCall>, at: Instant, t: Instant)
    requires Settled(w, at) && at <= t && Ordered(calls, t) && Before(calls, at + 1_000_000_000)
    requires forall i :: 0 <= i < |calls| ==> !calls[i].call.Settled?
    ensures Run(w, calls).quality == w.quality && Run(w, calls).slow == w.slow
    decreases |calls|
  {
    if calls != [] {
      SettledStep(w, calls[0], at);
      hide Step, Settled;
      SettleHoldsTheDial(Step(w, calls[0]).walk, calls[1..], at, calls[0].now);
    }
  }

  lemma SettledStep(w: Walk, c: TimedCall, at: Instant)
    requires Settled(w, at) && at <= c.now < at + 1_000_000_000 && !c.call.Settled?
    ensures var v := Step(w, c).walk; Settled(v, at) && v.quality == w.quality && v.slow == w.slow
  {
    hide Popped, Baseline, GiveUp, TakeBack, BehindCount;
  }

  lemma SettleSettles(w: Walk, now: Instant)
    ensures var v := Settle(w, now);
            && Settled(v, now) && v.quality == w.quality && v.slow == w.slow
            && v.verdicts == 0 && v.clear.None?
  {}

  /** For two seconds after a keyframe nothing is heard at all. */
  lemma {:induction false} KeyframeHoldsTheDial(w: Walk, calls: seq<TimedCall>, until: Instant)
    requires w.heldUntil == Some(until) && Before(calls, until)
    requires forall i :: 0 <= i < |calls| ==> !calls[i].call.Settled? && !calls[i].call.KeyframeSent?
    ensures Run(w, calls) == w.(recent := Run(w, calls).recent)
    decreases |calls|
  {
    if calls != [] {
      HeldStep(w, calls[0], until);
      hide Step;
      KeyframeHoldsTheDial(Step(w, calls[0]).walk, calls[1..], until);
    }
  }

  lemma HeldStep(w: Walk, c: TimedCall, until: Instant)
    requires w.heldUntil == Some(until) && c.now < until && !c.call.Settled? && !c.call.KeyframeSent?
    ensures Step(w, c).walk == w.(recent := Step(w, c).walk.recent)
  {
    hide Popped, Baseline, Acted, Noted;
  }

  lemma KeyframeHolds(w: Walk, now: Instant)
    ensures var v := Keyframe(w, now);
            && v.heldUntil == Some(now + 2_000_000_000) && v.quality == w.quality && v.slow == w.slow
            && v.verdicts == 0 && v.clear.None? && v.changedAt == w.changedAt
  {}
}
