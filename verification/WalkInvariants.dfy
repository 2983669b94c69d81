/** What every run of a walk keeps (src/walk.rs). */
module WalkInvariants {
  import opened Options
  import opened QualityWalks

  /** A call a session makes of its walk. */
  datatype Call =
    | Fenced(took: Duration, verdict: bool)
    | Written(blocked: Duration, fenced: bool)
    | Observed(blocked: Duration, lag: Duration)
    | Settled
    | KeyframeSent

  datatype TimedCall = TimedCall(call: Call, now: Instant)

  function Step(w: Walk, c: TimedCall): Outcome {
    match c.call
    case Fenced(took, verdict) => Fence(w, took, verdict, c.now)
    case Written(blocked, fenced) => Write(w, blocked, fenced, c.now)
    case Observed(blocked, lag) => Hear(w, blocked, Some(lag), c.now)
    case Settled => Outcome(Settle(w, c.now), None)
    case KeyframeSent => Outcome(Keyframe(w, c.now), None)
  }

  function Run(w: Walk, calls: seq<TimedCall>): Walk
    decreases |calls|
  {
    if calls == [] then w else Run(Step(w, calls[0]).walk, calls[1..])
  }

  /** The clock never falls, from `t` on. */
  predicate Ordered(calls: seq<TimedCall>, t: Instant) {
    calls == [] || (t <= calls[0].now && Ordered(calls[1..], calls[0].now))
  }

  function EndOf(calls: seq<TimedCall>, t: Instant): Instant {
    if calls == [] then t else calls[|calls| - 1].now
  }

  /** What every reachable walk satisfies at a time no earlier than its last call. */
  predicate Inv(w: Walk, t: Instant) {
    && QUALITY_MIN <= w.ceiling <= QUALITY_MAX
    && w.floor == Min(QUALITY_FLOOR, w.ceiling)
    && w.floor <= w.quality <= w.ceiling
    && w.slow <= SLOW_MAX
    && w.verdicts < 16
    && 1 <= w.reclaim <= STEP_UP_MAX
    && (w.reclaimed.Some? ==>
          w.slow == 0 && w.floor <= w.reclaimed.value.quality < w.quality && w.reclaimed.value.at <= t)
    && (w.refused.Some? ==> w.quality <= w.refused.value.quality && w.refused.value.at <= t)
    && (w.clear.Some? ==> w.clear.value.since <= t && 1 <= w.clear.value.count)
    && (w.changedAt.Some? ==> w.changedAt.value <= t)
    && (w.heldUntil.Some? ==>
          && w.heldUntil.value <= t + KEYFRAME_HOLD
          && w.verdicts == 0 && w.clear.None? && w.steppedOn.None?)
    && (w.steppedOn.Some? ==> w.steppedOn.value >= BEHIND_BLOCK)
  }

  lemma NewInv(ceiling: nat, frame: Duration, adaptive: bool, t: Instant)
    ensures Inv(New(ceiling, frame, adaptive), t)
  {}

  lemma NotedInv(w: Walk, behind: bool, lag: Duration, queued: Option<Duration>, t: Instant, now: Instant)
    requires Inv(w, t) && t <= now
    ensures Inv(Noted(w, behind, lag, queued, now), now)
  {}

  lemma GiveUpInv(w: Walk, lag: Duration, now: Instant, soon: bool)
    requires Inv(w, now) && lag >= BEHIND_BLOCK && w.heldUntil.None?
    ensures Inv(GiveUp(w, lag, now, soon).0, now)
  {
    if Refusable(w, now).Some? {
      var from := w.reclaimed.value.quality;
      assert (w.quality - from) % 256 == w.quality - from;
      assert RefusalCap(from, w.quality) == from + (w.quality - from) / 2;
    }
  }

  lemma TakeBackInv(w: Walk, now: Instant)
    requires Inv(w, now)
    ensures Inv(TakeBack(w, now).0, now)
  {
    if w.slow == 0 {
      var refused := HeldRefusal(w, now);
      var ceiling := if refused.Some? then Min(refused.value.quality, w.ceiling) else w.ceiling;
      var wanted := Min(Min(w.quality + w.reclaim, U8_MAX), ceiling);
      if wanted <= w.quality {
      } else {
        assert w.quality < wanted <= w.ceiling && (refused.Some? ==> wanted <= refused.value.quality);
        var reclaim := if wanted == ceiling && ceiling < w.ceiling then STEP_UP
                       else Min(Min(2 * w.reclaim, U8_MAX), STEP_UP_MAX);
        assert 1 <= reclaim <= STEP_UP_MAX;
        SteppedUpInv(w, now, wanted, reclaim, refused);
      }
    }
  }

  lemma SteppedUpInv(w: Walk, now: Instant, wanted: nat, reclaim: nat, refused: Option<Mark>)
    requires Inv(w, now) && w.slow == 0 && w.quality < wanted <= w.ceiling && 1 <= reclaim <= STEP_UP_MAX
    requires refused.None? || (refused == w.refused && wanted <= refused.value.quality)
    ensures Inv(w.(refused := refused, reclaim := reclaim, reclaimed := Some(Mark(w.quality, now)),
                   quality := wanted, steppedOn := None, climbedAt := Some(now)), now)
  {}

  lemma ActedInv(n: Walk, behind: bool, lag: Duration, now: Instant)
    requires Inv(n, now) && n.heldUntil.None? && (behind ==> lag >= BEHIND_BLOCK)
    ensures Inv(Acted(n, behind, lag, now).walk, now)
  {
    match Decide(n, behind, lag, now)
    case Waits =>
    case Drains =>
    case GivesUp =>
      GiveUpInv(n, lag, now, n.changedAt.Some? && Elapsed(n.changedAt.value, now) < ADJUST_COOLDOWN);
    case TakesBack => TakeBackInv(n, now);
  }

  lemma HearInv(w: Walk, blocked: Duration, measured: Option<Duration>, t: Instant, now: Instant)
    requires Inv(w, t) && t <= now
    ensures Inv(Hear(w, blocked, measured, now).walk, now)
  {
    var lag := if w.lagAware then measured else None;
    var queued := if lag.Some? then Some(Max(lag.value, blocked)) else None;
    if w.heldUntil.None? || w.heldUntil.value <= now {
      var behind := IsBehind(blocked, lag.GetOr(0));
      var worst := Max(lag.GetOr(0), blocked);
      NotedInv(w, behind, worst, queued, t, now);
      ActedInv(Noted(w, behind, worst, queued, now), behind, worst, now);
    }
  }

  lemma StepInv(w: Walk, c: TimedCall, t: Instant)
    requires Inv(w, t) && t <= c.now
    ensures Inv(Step(w, c).walk, c.now)
  {
    hide Hear, Popped, Baseline, Queueing;
    match c.call
    case Fenced(took, verdict) =>
      if w.lagAware {
        var d := WithDelivery(w, took, c.now);
        assert Inv(d, t);
        HearInv(d, 0, Some(Queueing(d.recent, took)), t, c.now);
      }
    case Written(blocked, fenced) => HearInv(w, blocked, None, t, c.now);
    case Observed(blocked, lag) => HearInv(w, blocked, Some(lag), t, c.now);
    case Settled =>
    case KeyframeSent =>
  }

  /** From any walk that keeps the invariant, every run keeps it. */
  lemma {:induction false} RunInv(w: Walk, calls: seq<TimedCall>, t: Instant)
    requires Inv(w, t) && Ordered(calls, t)
    ensures Inv(Run(w, calls), EndOf(calls, t))
    decreases |calls|
  {
    if calls == [] {
    } else {
      StepInv(w, calls[0], t);
      RunInv(Step(w, calls[0]).walk, calls[1..], calls[0].now);
    }
  }

  /** Every reachable walk: the dial within its ends, at most three doublings, and a
      step up outstanding only over a lower quality and with no frames given up. */
  lemma ReachableWalk(ceiling: nat, frame: Duration, adaptive: bool, calls: seq<TimedCall>, t: Instant)
    requires Ordered(calls, t)
    ensures var w := Run(New(ceiling, frame, adaptive), calls);
            && Min(QUALITY_FLOOR, w.ceiling) <= w.quality <= w.ceiling
            && w.ceiling == Max(QUALITY_MIN, Min(ceiling, QUALITY_MAX))
            && w.slow <= SLOW_MAX
            && (w.reclaimed.Some? ==> w.reclaimed.value.quality < w.quality && w.slow == 0)
            && (w.refused.Some? ==> w.quality <= w.refused.value.quality)
  {
    NewInv(ceiling, frame, adaptive, t);
    RunInv(New(ceiling, frame, adaptive), calls, t);
    RunConstants(New(ceiling, frame, adaptive), calls);
  }

  lemma StepConstants(w: Walk, c: TimedCall)
    ensures var v := Step(w, c).walk;
            v.ceiling == w.ceiling && v.lagAware == w.lagAware && v.frame == w.frame && v.floor == w.floor
  {
    hide Acted, Noted, Popped;
  }

  /** What the walk was made with never changes. */
  lemma {:induction false} RunConstants(w: Walk, calls: seq<TimedCall>)
    ensures var v := Run(w, calls);
            v.ceiling == w.ceiling && v.lagAware == w.lagAware && v.frame == w.frame && v.floor == w.floor
    decreases |calls|
  {
    if calls == [] {
    } else {
      StepConstants(w, calls[0]);
      RunConstants(Step(w, calls[0]).walk, calls[1..]);
    }
  }

  // ----- a refusal's hold

  /** A refusal at cap `m.quality`: still the one held, or one of a strictly lower cap. */
  predicate Under(w: Walk, m: Mark) {
    w.refused.Some? && (w.refused.value == m || w.refused.value.quality < m.quality)
    && w.refused.value.at >= m.at
  }

  lemma GiveUpUnder(w: Walk, lag: Duration, now: Instant, soon: bool, m: Mark)
    requires Inv(w, now) && Under(w, m)
    ensures Under(GiveUp(w, lag, now, soon).0, m)
  {
    if Refusable(w, now).Some? {
      var from := w.reclaimed.value.quality;
      assert (w.quality - from) % 256 == w.quality - from;
      assert RefusalCap(from, w.quality) == from + (w.quality - from) / 2 < w.quality <= w.refused.value.quality;
    }
  }

  lemma ActedUnder(n: Walk, behind: bool, lag: Duration, now: Instant, m: Mark)
    requires Inv(n, now) && Under(n, m) && now < m.at + REFUSAL_HOLD
    ensures Under(Acted(n, behind, lag, now).walk, m)
  {
    hide Decide, GiveUp, Inv, Doubled;
    match Decide(n, behind, lag, now)
    case Waits =>
    case Drains =>
    case GivesUp =>
      GiveUpUnder(n, lag, now, n.changedAt.Some? && Elapsed(n.changedAt.value, now) < ADJUST_COOLDOWN, m);
    case TakesBack => assert TakeBack(n, now).0.refused == n.refused;
  }

  lemma HearUnder(w: Walk, blocked: Duration, measured: Option<Duration>, t: Instant, now: Instant, m: Mark)
    requires Inv(w, t) && t <= now && Under(w, m) && now < m.at + REFUSAL_HOLD
    ensures Under(Hear(w, blocked, measured, now).walk, m)
  {
    var lag := if w.lagAware then measured else None;
    var queued := if lag.Some? then Some(Max(lag.value, blocked)) else None;
    if w.heldUntil.None? || w.heldUntil.value <= now {
      var behind := IsBehind(blocked, lag.GetOr(0));
      var worst := Max(lag.GetOr(0), blocked);
      NotedInv(w, behind, worst, queued, t, now);
      ActedUnder(Noted(w, behind, worst, queued, now), behind, worst, now, m);
    }
  }

  lemma StepUnder(w: Walk, c: TimedCall, t: Instant, m: Mark)
    requires Inv(w, t) && t <= c.now && Under(w, m) && c.now < m.at + REFUSAL_HOLD
    ensures Under(Step(w, c).walk, m)
  {
    hide Hear, Popped, Baseline, Queueing;
    match c.call
    case Fenced(took, verdict) =>
      if w.lagAware {
        var d := WithDelivery(w, took, c.now);
        HearUnder(d, 0, Some(Queueing(d.recent, took)), t, c.now, m);
      }
    case Written(blocked, fenced) => HearUnder(w, blocked, None, t, c.now, m);
    case Observed(blocked, lag) => HearUnder(w, blocked, Some(lag), t, c.now, m);
    case Settled =>
    case KeyframeSent =>
  }

  /** After a refusal at a cap, whatever the session calls for `REFUSAL_HOLD`: the
      quality stays at or under the cap, and any refusal since has a lower one. */
  lemma {:induction false} RefusalHolds(w: Walk, calls: seq<TimedCall>, t: Instant, m: Mark)
    requires Inv(w, t) && Under(w, m) && Ordered(calls, t)
    requires EndOf(calls, t) < m.at + REFUSAL_HOLD
    ensures var v := Run(w, calls);
            && v.quality <= m.quality
            && v.refused.Some?
            && (v.refused.value != m ==> v.refused.value.quality < m.quality)
    decreases |calls|
  {
    if calls == [] {
    } else {
      OrderedEnd(calls, t);
      StepInv(w, calls[0], t);
      StepUnder(w, calls[0], t, m);
      RefusalHolds(Step(w, calls[0]).walk, calls[1..], calls[0].now, m);
    }
  }

  lemma {:induction false} OrderedEnd(calls: seq<TimedCall>, t: Instant)
    requires Ordered(calls, t)
    ensures t <= EndOf(calls, t)
    ensures calls != [] ==> calls[0].now <= EndOf(calls, t)
  {
    if calls == [] {
    } else {
      OrderedEnd(calls[1..], calls[0].now);
    }
  }

  /** A refusal made is one the hold then keeps: a step down within the window of the
      step up it answers lands on the quality the link bore, at or under the cap,
      which is below the quality refused. */
  lemma RefusalMade(w: Walk, lag: Duration, now: Instant, soon: bool)
    requires Inv(w, now) && Refusable(w, now).Some?
    ensures var v := GiveUp(w, lag, now, soon).0;
            && v.quality == w.reclaimed.value.quality < w.quality
            && v.refused.Some? && v.refused.value.at == now
            && v.quality <= v.refused.value.quality < w.quality
            && w.quality - v.refused.value.quality - (v.refused.value.quality - v.quality) in {0, 1}
            && Under(v, v.refused.value)
  {
    var from := w.reclaimed.value.quality;
    assert (w.quality - from) % 256 == w.quality - from;
    assert RefusalCap(from, w.quality) == from + (w.quality - from) / 2;
  }

  // ----- how often the dial moves

  /** How many of the calls move the dial. */
  function Moves(w: Walk, calls: seq<TimedCall>): nat
    decreases |calls|
  {
    if calls == [] then 0
    else (if Step(w, calls[0]).moved.Some? then 1 else 0) + Moves(Step(w, calls[0]).walk, calls[1..])
  }

  predicate Gap(w: Walk, o: Outcome, now: Instant) {
    && (o.moved.Some? ==>
          && (w.changedAt.Some? ==> w.changedAt.value + REFUSAL_COOLDOWN <= now)
          && o.walk.changedAt == Some(now))
    && (o.moved.None? ==> o.walk.changedAt == w.changedAt || o.walk.changedAt == Some(now))
  }

  lemma ActedGap(n: Walk, behind: bool, lag: Duration, now: Instant)
    requires n.changedAt.Some? ==> n.changedAt.value <= now
    ensures Gap(n, Acted(n, behind, lag, now), now)
  {
    hide GiveUp, TakeBack, Doubled, BehindCount, ClearEnough, Draining, Climbing;
  }

  lemma HearGap(w: Walk, blocked: Duration, measured: Option<Duration>, now: Instant)
    requires w.changedAt.Some? ==> w.changedAt.value <= now
    ensures Gap(w, Hear(w, blocked, measured, now), now)
  {
    hide Acted;
    var lag := if w.lagAware then measured else None;
    var queued := if lag.Some? then Some(Max(lag.value, blocked)) else None;
    var behind := IsBehind(blocked, lag.GetOr(0));
    var worst := Max(lag.GetOr(0), blocked);
    ActedGap(Noted(w, behind, worst, queued, now), behind, worst, now);
  }

  /** A call moves the dial only a cooldown after the last, and then says so in
      `changedAt`, which no call but one that restarts the cooldown changes. */
  lemma MoveGap(w: Walk, c: TimedCall)
    requires w.changedAt.Some? ==> w.changedAt.value <= c.now
    ensures Gap(w, Step(w, c), c.now)
  {
    hide Hear, Popped, Baseline, Queueing;
    match c.call
    case Fenced(took, verdict) =>
      var d := WithDelivery(w, took, c.now);
      HearGap(d, 0, Some(Queueing(d.recent, took)), c.now);
    case Written(blocked, fenced) => HearGap(w, blocked, None, c.now);
    case Observed(blocked, lag) => HearGap(w, blocked, Some(lag), c.now);
    case Settled =>
    case KeyframeSent =>
  }

  /** Any two moves are at least `REFUSAL_COOLDOWN` apart, so a run of length T has at
      most T over that, and one more where it starts with no move behind it. */
  lemma {:induction false} MovesAreBounded(w: Walk, calls: seq<TimedCall>, t: Instant)
    requires Inv(w, t) && Ordered(calls, t)
    ensures w.changedAt.Some? ==> Moves(w, calls) * 300_000_000 <= EndOf(calls, t) - w.changedAt.value
    ensures w.changedAt.None? ==> Moves(w, calls) * 300_000_000 <= EndOf(calls, t) - t + REFUSAL_COOLDOWN
    decreases |calls|
  {
    OrderedEnd(calls, t);
    if calls == [] {
    } else {
      hide Step;
      var c := calls[0];
      StepInv(w, c, t);
      MoveGap(w, c);
      OrderedEnd(calls[1..], c.now);
      MovesAreBounded(Step(w, c).walk, calls[1..], c.now);
    }
  }

  // ----- what a walk that is not lag-aware hears

  /** The call with all a walk that hears only pressure ignores taken out of it. */
  function Blinded(c: TimedCall): TimedCall {
    match c.call
    case Written(blocked, _) => c.(call := Written(blocked, false))
    case Observed(blocked, _) => c.(call := Written(blocked, false))
    case _ => c
  }

  /** The calls without their fences and lags. */
  function Blind(calls: seq<TimedCall>): seq<TimedCall> {
    if calls == [] then []
    else (if calls[0].call.Fenced? then [] else [Blinded(calls[0])]) + Blind(calls[1..])
  }

  lemma BlindStep(w: Walk, c: TimedCall)
    requires !w.lagAware
    ensures c.call.Fenced? ==> Step(w, c) == Outcome(w, None)
    ensures !c.call.Fenced? ==> Step(w, c) == Step(w, Blinded(c))
    ensures !Step(w, c).walk.lagAware
  {}

  lemma {:induction false} BlindRun(w: Walk, calls: seq<TimedCall>)
    requires !w.lagAware
    ensures Run(w, calls) == Run(w, Blind(calls))
    decreases |calls|
  {
    if calls == [] {
    } else {
      BlindStep(w, calls[0]);
      BlindRun(Step(w, calls[0]).walk, calls[1..]);
      if !calls[0].call.Fenced? {
        assert Blind(calls)[0] == Blinded(calls[0]) && Blind(calls)[1..] == Blind(calls[1..]);
      } else {
        assert Blind(calls) == Blind(calls[1..]);
      }
    }
  }

  /** Two runs of a held walk that differ only in fences and lags end alike. */
  lemma HeldWalkHearsPressureAlone(ceiling: nat, frame: Duration, a: seq<TimedCall>, b: seq<TimedCall>)
    requires Blind(a) == Blind(b)
    ensures Run(New(ceiling, frame, false), a) == Run(New(ceiling, frame, false), b)
  {
    BlindRun(New(ceiling, frame, false), a);
    BlindRun(New(ceiling, frame, false), b);
  }

  // ----- the link's floor

  /** Every delivery fenced in a run, in order. */
  function Deliveries(calls: seq<TimedCall>): seq<Delivery> {
    if calls == [] then []
    else
      (if calls[0].call.Fenced? then [Delivery(calls[0].now, calls[0].call.took)] else [])
      + Deliveries(calls[1..])
  }

  /** Those of the last `BASELINE_WINDOW`. */
  function Recent(all: seq<Delivery>, now: Instant): seq<Delivery> {
    if all == [] then []
    else (if Elapsed(all[0].at, now) <= BASELINE_WINDOW then [all[0]] else []) + Recent(all[1..], now)
  }

  predicate InOrder(ds: seq<Delivery>, now: Instant) {
    && (forall i :: 0 <= i < |ds| ==> ds[i].at <= now)
    && (forall i, j :: 0 <= i < j < |ds| ==> ds[i].at <= ds[j].at)
  }

  /** Popping the front of an ordered deque is taking what the window holds. */
  lemma {:induction false} PoppedIsRecent(all: seq<Delivery>, now: Instant)
    requires InOrder(all, now)
    ensures Popped(all, now) == Recent(all, now)
  {
    if all == [] {
    } else if Elapsed(all[0].at, now) > BASELINE_WINDOW {
      PoppedIsRecent(all[1..], now);
    } else {
      AllRecent(all, now);
    }
  }

  lemma {:induction false} AllRecent(all: seq<Delivery>, now: Instant)
    requires forall i :: 0 <= i < |all| ==> Elapsed(all[i].at, now) <= BASELINE_WINDOW
    ensures Recent(all, now) == all
  {
    if all == [] {
    } else {
      AllRecent(all[1..], now);
    }
  }

  /** What the window held earlier is all of what it holds later. */
  lemma {:induction false} RecentOfRecent(all: seq<Delivery>, before: Instant, now: Instant)
    requires before <= now
    ensures Recent(Recent(all, before), now) == Recent(all, now)
  {
    if all == [] {
    } else {
      RecentOfRecent(all[1..], before, now);
      var rest := Recent(all[1..], before);
      if Elapsed(all[0].at, before) <= BASELINE_WINDOW {
        assert Recent(all, before)[0] == all[0] && Recent(all, before)[1..] == rest;
      } else {
        assert Recent(all, before) == rest;
      }
    }
  }

  lemma {:induction false} RecentOfSum(a: seq<Delivery>, b: seq<Delivery>, now: Instant)
    ensures Recent(a + b, now) == Recent(a, now) + Recent(b, now)
  {
    if a == [] {
      assert a + b == b;
    } else {
      assert (a + b)[0] == a[0] && (a + b)[1..] == a[1..] + b;
      RecentOfSum(a[1..], b, now);
    }
  }

  lemma {:induction false} RecentMembers(all: seq<Delivery>, now: Instant)
    requires InOrder(all, now)
    ensures InOrder(Recent(all, now), now)
    ensures forall d :: d in Recent(all, now) <==> d in all && Elapsed(d.at, now) <= BASELINE_WINDOW
  {
    if all == [] {
    } else {
      var rest := Recent(all[1..], now);
      RecentMembers(all[1..], now);
      forall d | d in rest ensures all[0].at <= d.at {
        assert d in all[1..];
      }
      assert forall d :: d in all <==> d == all[0] || d in all[1..];
      OrderPrepended(all[0], rest, now);
    }
  }

  lemma OrderPrepended(d: Delivery, rest: seq<Delivery>, now: Instant)
    requires InOrder(rest, now) && d.at <= now && forall e :: e in rest ==> d.at <= e.at
    ensures InOrder([d] + rest, now)
  {
    forall i | 0 <= i < |rest| ensures d.at <= rest[i].at {
      assert rest[i] in rest;
    }
  }

  /** The deque of a walk that heard `all` last at `t`. */
  predicate Holds(w: Walk, all: seq<Delivery>, t: Instant) {
    InOrder(all, t) && (all == [] ==> w.recent == [])
    && (all != [] ==> w.recent == Recent(all, all[|all| - 1].at))
  }

  lemma OrderKept(all: seq<Delivery>, d: Delivery, t: Instant)
    requires InOrder(all, t) && t <= d.at
    ensures InOrder(all, d.at) && InOrder(all + [d], d.at)
  {}

  /** A fence's delivery joins what the window holds of those before it. */
  lemma DeliveryHolds(w: Walk, all: seq<Delivery>, d: Delivery, t: Instant)
    requires Holds(w, all, t) && t <= d.at
    ensures WithDelivery(w, d.took, d.at).recent == Recent(all + [d], d.at)
  {
    OrderKept(all, d, t);
    RecentOfSum(all, [d], d.at);
    assert Recent([d], d.at) == [d] + Recent([d][1..], d.at) == [d];
    if all != [] {
      var last := all[|all| - 1].at;
      assert InOrder(all, last);
      RecentMembers(all, last);
      assert InOrder(w.recent, d.at);
      hide Recent, Popped, InOrder;
      PoppedIsRecent(w.recent, d.at);
      RecentOfRecent(all, last, d.at);
    }
  }

  lemma StepHolds(w: Walk, c: TimedCall, all: seq<Delivery>, t: Instant)
    requires w.lagAware && Holds(w, all, t) && t <= c.now
    ensures Holds(Step(w, c).walk, all + Deliveries([c]), c.now)
  {
    hide Acted, Noted, InOrder, Recent, Popped, Baseline, IsBehind;
    if c.call.Fenced? {
      var d := Delivery(c.now, c.call.took);
      assert Deliveries([c]) == [d];
      DeliveryHolds(w, all, d, t);
      OrderKept(all, d, t);
      assert (all + [d])[|all|] == d;
      assert Step(w, c).walk.recent == WithDelivery(w, d.took, d.at).recent;
    } else {
      assert Deliveries([c]) == [];
      assert all + [] == all;
      OrderKept(all, Delivery(c.now, 0), t);
      assert Step(w, c).walk.recent == w.recent;
    }
  }

  lemma {:induction false} RunHolds(w: Walk, calls: seq<TimedCall>, all: seq<Delivery>, t: Instant)
    requires w.lagAware && Holds(w, all, t) && Ordered(calls, t)
    ensures Holds(Run(w, calls), all + Deliveries(calls), EndOf(calls, t))
    decreases |calls|
  {
    hide Holds, Step;
    if calls == [] {
      assert all + [] == all;
    } else {
      StepHolds(w, calls[0], all, t);
      StepConstants(w, calls[0]);
      RunHolds(Step(w, calls[0]).walk, calls[1..], all + Deliveries([calls[0]]), calls[0].now);
      assert all + Deliveries(calls) == all + Deliveries([calls[0]]) + Deliveries(calls[1..]);
    }
  }

  lemma {:induction false} BaselineIsLeast(recent: seq<Delivery>)
    requires recent != []
    ensures forall d :: d in recent ==> Baseline(recent) <= d.took
    ensures exists d :: d in recent && d.took == Baseline(recent)
  {
    if |recent| == 1 {
      assert recent[0] in recent;
    } else {
      BaselineIsLeast(recent[1..]);
      var d :| d in recent[1..] && d.took == Baseline(recent[1..]);
      assert d in recent && recent[0] in recent;
    }
  }

  /** The floor a lag-aware walk reads when a fence comes back is the least of all the
      deliveries of the last `BASELINE_WINDOW`, the latest among them. */
  lemma FloorIsTheWindowsLeast(ceiling: nat, frame: Duration, calls: seq<TimedCall>, t: Instant)
    requires Ordered(calls, t) && calls != [] && calls[|calls| - 1].call.Fenced?
    ensures var now := calls[|calls| - 1].now;
            var all := Deliveries(calls);
            var least := Baseline(Run(New(ceiling, frame, true), calls).recent);
            && (forall d :: d in all && now - d.at <= BASELINE_WINDOW ==> least <= d.took)
            && (exists d :: d in all && now - d.at <= BASELINE_WINDOW && d.took == least)
  {
    hide InOrder, Run, Recent, Baseline, Deliveries;
    var w := New(ceiling, frame, true);
    var last := calls[|calls| - 1];
    assert Holds(w, [], t) by { OrderedEmpty(t); }
    RunHolds(w, calls, [], t);
    assert [] + Deliveries(calls) == Deliveries(calls);
    DeliveriesEnd(calls);
    var all := Deliveries(calls);
    var recent := Run(w, calls).recent;
    RecentMembers(all, last.now);
    assert all[|all| - 1] in all;
    assert recent != [];
    BaselineIsLeast(recent);
    var d :| d in recent && d.took == Baseline(recent);
    assert d in all && last.now - d.at <= BASELINE_WINDOW;
  }

  lemma OrderedEmpty(t: Instant)
    ensures InOrder([], t)
  {}

  lemma {:induction false} DeliveriesEnd(calls: seq<TimedCall>)
    requires calls != [] && calls[|calls| - 1].call.Fenced?
    ensures var all := Deliveries(calls); all != [] && all[|all| - 1].at == calls[|calls| - 1].now
  {
    if |calls| == 1 {
    } else {
      DeliveriesEnd(calls[1..]);
    }
  }
}
