/** How picture quality and frame rate are traded against a link's lag (src/walk.rs).

    `Walk` is the state of a walk as a value and the functions on it say what each
    call does to it; `QualityWalk` is the object whose methods do it in place. Times
    are nanoseconds since some start, passed in with every call.
 */
module QualityWalks {
  import opened Options

  type Duration = nat
  type Instant = nat

  const SECOND: nat := 1_000_000_000

  const BEHIND_BLOCK: Duration := 20_000_000
  const LAG_BEHIND: Duration := 60_000_000
  const LAG_HEAVY: Duration := 150_000_000
  const LAG_SEVERE: Duration := 400_000_000
  const LAG_CLEAR: Duration := 30_000_000
  const LAG_IDLE: Duration := 15_000_000
  const BEHIND_FRAMES: nat := 2
  const CLEAR_SPAN: Duration := 1_000_000_000
  const CLEAR_FRAMES: nat := 4
  const CLIMB_SPAN: Duration := 500_000_000
  const KEYFRAME_HOLD: Duration := 2_000_000_000
  const ADJUST_COOLDOWN: Duration := 1_000_000_000
  const REFUSAL_COOLDOWN: Duration := 300_000_000
  const HEAVY_COOLDOWN: Duration := 500_000_000
  const STEP_UP: nat := 3
  const STEP_UP_MAX: nat := 24
  const REFUSAL_HOLD: Duration := 15_000_000_000
  const REFUSAL_WINDOW: Duration := 4_000_000_000
  const QUALITY_MIN: nat := 1
  const QUALITY_MAX: nat := 100
  const QUALITY_FLOOR: nat := 20
  const SLOW_MAX: nat := 3
  const BASELINE_WINDOW: Duration := 60_000_000_000
  const U8_MAX: nat := 255

  /** What the encoder and the pacing are told of a move. */
  datatype Pace = Pace(quality: nat, interval: Duration)

  /** A fenced frame's delivery, and when it came. */
  datatype Delivery = Delivery(at: Instant, took: Duration)

  /** A run of clear verdicts: when it began, how many, and the worst queueing in it. */
  datatype ClearRun = ClearRun(since: Instant, count: nat, most: Option<Duration>)

  /** A quality and when it was taken, or refused. */
  datatype Mark = Mark(quality: nat, at: Instant)

  datatype Walk = Walk(
    ceiling: nat,
    lagAware: bool,
    frame: Duration,
    quality: nat,
    floor: nat,
    slow: nat,
    recent: seq<Delivery>,
    // The last four verdicts as bits, newest lowest.
    verdicts: nat,
    clear: Option<ClearRun>,
    changedAt: Option<Instant>,
    heldUntil: Option<Instant>,
    reclaim: nat,
    reclaimed: Option<Mark>,
    refused: Option<Mark>,
    steppedOn: Option<Duration>,
    climbedAt: Option<Instant>)

  /** The time since `at`, none for one still to come. */
  function Elapsed(at: Instant, now: Instant): Duration {
    if at <= now then now - at else 0
  }

  /** How many of the last four verdicts were behind. */
  function BehindCount(verdicts: nat): nat {
    verdicts % 2 + verdicts / 2 % 2 + verdicts / 4 % 2 + verdicts / 8 % 2
  }

  /** The frame interval doubled `times` over. */
  function Doubled(frame: Duration, times: nat): Duration {
    if times == 0 then frame else 2 * Doubled(frame, times - 1)
  }

  function Interval(w: Walk): Duration {
    Doubled(w.frame, w.slow)
  }

  function PaceOf(w: Walk): Pace {
    Pace(w.quality, Interval(w))
  }

  function New(ceiling: nat, frame: Duration, adaptive: bool): Walk {
    var c := Max(QUALITY_MIN, Min(ceiling, QUALITY_MAX));
    Walk(c, adaptive, frame, c, Min(QUALITY_FLOOR, c), 0, [], 0, None, None, None,
         STEP_UP, None, None, None, None)
  }

  /** The least of the deliveries kept, or zero before one. */
  function Baseline(recent: seq<Delivery>): Duration {
    if recent == [] then 0
    else if |recent| == 1 then recent[0].took
    else Min(recent[0].took, Baseline(recent[1..]))
  }

  /** The deliveries left once those past the window are popped off the front. */
  function Popped(recent: seq<Delivery>, now: Instant): seq<Delivery> {
    if recent != [] && Elapsed(recent[0].at, now) > BASELINE_WINDOW
    then Popped(recent[1..], now)
    else recent
  }

  /** What no verdict changes: what the walk was made with, and its deliveries. */
  predicate SameLink(v: Walk, w: Walk) {
    && v.ceiling == w.ceiling && v.lagAware == w.lagAware && v.frame == w.frame && v.floor == w.floor
    && v.recent == w.recent
  }

  /** A walk and where it stands if the call moved it. */
  datatype Outcome = Outcome(walk: Walk, moved: Option<Pace>)

  /** What a walk does with a verdict it was due to hear. */
  datatype Turn = Waits | Drains | GivesUp | TakesBack

  function IsBehind(blocked: Duration, lag: Duration): bool {
    blocked >= BEHIND_BLOCK || lag >= LAG_BEHIND
  }

  /** The clear run once a verdict of `lag` in all is counted in it. */
  function ClearAfter(clear: Option<ClearRun>, behind: bool, lag: Duration,
                      queued: Option<Duration>, now: Instant): Option<ClearRun>
  {
    if behind then None
    else if lag <= LAG_CLEAR then
      match clear
      case None => Some(ClearRun(now, 1, queued))
      case Some(run) =>
        var most := if run.most.Some? && queued.Some?
                    then Some(Max(run.most.value, queued.value)) else None;
        Some(ClearRun(run.since, run.count + 1, most))
    else
      match clear
      case None => None
      case Some(run) => Some(run.(most := if run.most.Some? then Some(lag) else None))
  }

  /** The walk with a verdict counted and nothing decided on it yet. */
  function Noted(w: Walk, behind: bool, lag: Duration, queued: Option<Duration>, now: Instant): Walk {
    w.(heldUntil := None,
       verdicts := (2 * w.verdicts + (if behind then 1 else 0)) % 16,
       clear := ClearAfter(w.clear, behind, lag, queued, now))
  }

  /** The last move was a step up, and hardly anything has queued behind it. */
  function Climbing(w: Walk): bool {
    && w.climbedAt.Some?
    && w.climbedAt == w.changedAt
    && w.clear.Some?
    && w.clear.value.most.Some?
    && w.clear.value.most.value <= LAG_IDLE
  }

  /** The least time since the last move before this verdict may move the dial. */
  function Cooldown(w: Walk, behind: bool, lag: Duration): Duration {
    if behind && w.reclaimed.Some? && w.changedAt == Some(w.reclaimed.value.at) then REFUSAL_COOLDOWN
    else if behind && lag >= LAG_HEAVY && w.steppedOn.Some? then HEAVY_COOLDOWN
    else if Climbing(w) then CLIMB_SPAN
    else ADJUST_COOLDOWN
  }

  /** The lag has fallen by more than a fifth since the last step down. */
  function Draining(w: Walk, lag: Duration): bool {
    w.steppedOn.Some? && lag + w.steppedOn.value / 5 < w.steppedOn.value
  }

  function ClearEnough(w: Walk, now: Instant): bool {
    && w.clear.Some?
    && w.clear.value.count >= CLEAR_FRAMES
    && Elapsed(w.clear.value.since, now) >= (if Climbing(w) then CLIMB_SPAN else CLEAR_SPAN)
  }

  /** What a walk whose verdict is noted does about it. */
  function Decide(w: Walk, behind: bool, lag: Duration, now: Instant): Turn {
    if w.changedAt.Some? && Elapsed(w.changedAt.value, now) < Cooldown(w, behind, lag) then Waits
    else if behind && BehindCount(w.verdicts) >= BEHIND_FRAMES then
      if Draining(w, lag) then Drains else GivesUp
    else if ClearEnough(w, now) then TakesBack
    else Waits
  }

  function StepsDown(lag: Duration): nat {
    if lag >= LAG_SEVERE then 3 else if lag >= LAG_HEAVY then 2 else 1
  }

  /** The step up a step down at `now` refuses, if there is one. */
  function Refusable(w: Walk, now: Instant): Option<Mark> {
    if w.reclaimed.Some? && Elapsed(w.reclaimed.value.at, now) <= REFUSAL_WINDOW
    then w.reclaimed else None
  }

  /** The midpoint of the quality that held and the one that was refused:
      `u8` subtraction, so `from` above the quality would wrap. */
  function RefusalCap(from: nat, quality: nat): nat {
    (from + ((quality - from) % 256) / 2) % 256
  }

  /** Quality given up, and frames once there is none left or the lag is severe. */
  function GiveUp(w: Walk, lag: Duration, now: Instant, soon: bool): (r: (Walk, bool))
    ensures SameLink(r.0, w) && r.0.changedAt == w.changedAt
  {
    var steps := StepsDown(lag);
    var onFloor := w.quality <= w.floor;
    var refusal := Refusable(w, now);
    var quality :=
      if refusal.Some? then Min(w.quality, refusal.value.quality)
      else if !onFloor then Max(Max(w.quality - 10 * steps, 0), w.floor)
      else w.quality;
    var refused :=
      if refusal.Some? then Some(Mark(RefusalCap(refusal.value.quality, w.quality), now)) else w.refused;
    var slower := (onFloor || (steps == 3 && !soon)) && w.slow < SLOW_MAX;
    var moved := (if refusal.Some? then w.quality > refusal.value.quality else !onFloor) || slower;
    (w.(quality := quality, refused := refused, slow := if slower then w.slow + 1 else w.slow,
        reclaim := STEP_UP, reclaimed := None, climbedAt := None, steppedOn := Some(lag)),
     moved)
  }

  /** The refusal still held at `now`. */
  function HeldRefusal(w: Walk, now: Instant): Option<Mark> {
    if w.refused.Some? && Elapsed(w.refused.value.at, now) >= REFUSAL_HOLD then None else w.refused
  }

  /** Frames taken back first, then quality. */
  function TakeBack(w: Walk, now: Instant): (r: (Walk, bool))
    ensures SameLink(r.0, w) && r.0.changedAt == w.changedAt
  {
    if w.slow > 0 then
      (w.(slow := w.slow - 1, steppedOn := None, climbedAt := Some(now)), true)
    else
      var refused := HeldRefusal(w, now);
      var ceiling := if refused.Some? then Min(refused.value.quality, w.ceiling) else w.ceiling;
      var wanted := Min(Min(w.quality + w.reclaim, U8_MAX), ceiling);
      if wanted <= w.quality then (w.(refused := refused), false)
      else
        (w.(refused := refused,
            reclaim := if wanted == ceiling && ceiling < w.ceiling then STEP_UP
                       else Min(Min(2 * w.reclaim, U8_MAX), STEP_UP_MAX),
            reclaimed := Some(Mark(w.quality, now)),
            quality := wanted,
            steppedOn := None,
            climbedAt := Some(now)),
         true)
  }

  /** A move made: the verdicts start over, and the cooldown with them. */
  function Moved(result: (Walk, bool), now: Instant): Outcome {
    if result.1 then
      var w := result.0.(verdicts := 0, clear := None, changedAt := Some(now));
      Outcome(w, Some(PaceOf(w)))
    else Outcome(result.0, None)
  }

  /** What comes of a verdict once it is noted. */
  function Acted(n: Walk, behind: bool, lag: Duration, now: Instant): (o: Outcome)
    ensures SameLink(o.walk, n)
  {
    match Decide(n, behind, lag, now)
    case Waits => Outcome(n, None)
    case Drains => Outcome(n.(steppedOn := Some(lag), changedAt := Some(now)), None)
    case GivesUp =>
      var soon := n.changedAt.Some? && Elapsed(n.changedAt.value, now) < ADJUST_COOLDOWN;
      Moved(GiveUp(n, lag, now, soon), now)
    case TakesBack => Moved(TakeBack(n, now), now)
  }

  /** One verdict heard: time spent blocked, and a lag if there is a measure of it. */
  function Hear(w: Walk, blocked: Duration, measured: Option<Duration>, now: Instant): (o: Outcome)
    ensures SameLink(o.walk, w)
  {
    var lag := if w.lagAware then measured else None;
    var queued := if lag.Some? then Some(Max(lag.value, blocked)) else None;
    if w.heldUntil.Some? && now < w.heldUntil.value then Outcome(w, None)
    else
      var behind := IsBehind(blocked, lag.GetOr(0));
      var worst := Max(lag.GetOr(0), blocked);
      Acted(Noted(w, behind, worst, queued, now), behind, worst, now)
  }

  function WithDelivery(w: Walk, took: Duration, now: Instant): Walk {
    w.(recent := Popped(w.recent, now) + [Delivery(now, took)])
  }

  /** The queueing a delivery shows: what it took past the link's own floor. */
  function Queueing(recent: seq<Delivery>, took: Duration): Duration {
    Max(took - Baseline(recent), 0)
  }

  function Fence(w: Walk, took: Duration, verdict: bool, now: Instant): Outcome {
    if !w.lagAware then Outcome(w, None)
    else
      var d := WithDelivery(w, took, now);
      if !verdict then Outcome(d, None)
      else Hear(d, 0, Some(Queueing(d.recent, took)), now)
  }

  function Write(w: Walk, blocked: Duration, fenced: bool, now: Instant): Outcome {
    if fenced && w.lagAware then Outcome(w, None) else Hear(w, blocked, None, now)
  }

  function Settle(w: Walk, now: Instant): Walk {
    w.(verdicts := 0, clear := None, changedAt := Some(now), steppedOn := None,
       reclaimed := None, climbedAt := None)
  }

  function Keyframe(w: Walk, now: Instant): Walk {
    w.(verdicts := 0, clear := None, steppedOn := None, heldUntil := Some(now + KEYFRAME_HOLD))
  }

  /** A walk, moved in place by the calls its session makes of it. */
  class QualityWalk {
    const ceiling: nat
    const lagAware: bool
    const frame: Duration
    const floor: nat
    var quality: nat
    var slow: nat
    var recent: seq<Delivery>
    var verdicts: nat
    var clear: Option<ClearRun>
    var changedAt: Option<Instant>
    var heldUntil: Option<Instant>
    var reclaim: nat
    var reclaimed: Option<Mark>
    var refused: Option<Mark>
    var steppedOn: Option<Duration>
    var climbedAt: Option<Instant>

    ghost function Model(): Walk
      reads this
    {
      Walk(ceiling, lagAware, frame, quality, floor, slow, recent, verdicts, clear, changedAt,
           heldUntil, reclaim, reclaimed, refused, steppedOn, climbedAt)
    }

    constructor (ceiling: nat, frame: Duration, adaptive: bool)
      ensures Model() == New(ceiling, frame, adaptive)
    {
      var clamped := Max(QUALITY_MIN, Min(ceiling, QUALITY_MAX));
      this.ceiling, lagAware, this.frame := clamped, adaptive, frame;
      quality, floor, slow := clamped, Min(QUALITY_FLOOR, clamped), 0;
      recent, verdicts, clear := [], 0, None;
      changedAt, heldUntil := None, None;
      reclaim, reclaimed, refused, steppedOn, climbedAt := STEP_UP, None, None, None, None;
    }

    /** The link's own round trip. */
    method Floor() returns (least: Duration)
      ensures least == Baseline(recent)
    {
      if recent == [] {
        return 0;
      }
      var i := |recent| - 1;
      least := recent[i].took;
      while i > 0
        invariant 0 <= i < |recent|
        invariant least == Baseline(recent[i..])
      {
        i := i - 1;
        assert recent[i..][1..] == recent[i + 1..];
        if recent[i].took < least {
          least := recent[i].took;
        }
      }
    }

    method Fenced(took: Duration, verdict: bool, now: Instant) returns (moved: Option<Pace>)
      modifies this
      ensures Outcome(Model(), moved) == Fence(old(Model()), took, verdict, now)
    {
      if !lagAware {
        return None;
      }
      while recent != [] && Elapsed(recent[0].at, now) > BASELINE_WINDOW
        invariant Popped(recent, now) == Popped(old(recent), now)
        invariant Model() == old(Model()).(recent := recent)
      {
        recent := recent[1..];
      }
      recent := recent + [Delivery(now, took)];
      if !verdict {
        return None;
      }
      var least := Floor();
      moved := HearVerdict(0, Some(Max(took - least, 0)), now);
    }

    method Written(blocked: Duration, fenced: bool, now: Instant) returns (moved: Option<Pace>)
      modifies this
      ensures Outcome(Model(), moved) == Write(old(Model()), blocked, fenced, now)
    {
      if fenced && lagAware {
        return None;
      }
      moved := HearVerdict(blocked, None, now);
    }

    method Observe(blocked: Duration, lag: Duration, now: Instant) returns (moved: Option<Pace>)
      modifies this
      ensures Outcome(Model(), moved) == Hear(old(Model()), blocked, Some(lag), now)
    {
      moved := HearVerdict(blocked, Some(lag), now);
    }

    method HearVerdict(blocked: Duration, measured: Option<Duration>, now: Instant)
      returns (moved: Option<Pace>)
      modifies this
      ensures Outcome(Model(), moved) == Hear(old(Model()), blocked, measured, now)
    {
      var heard := if lagAware then measured else None;
      var queued := if heard.Some? then Some(Max(heard.value, blocked)) else None;
      var lag := heard.GetOr(0);
      if heldUntil.Some? && now < heldUntil.value {
        return None;
      }
      var behind := blocked >= BEHIND_BLOCK || lag >= LAG_BEHIND;
      lag := Max(lag, blocked);
      NoteVerdict(behind, lag, queued, now);
      moved := ActOn(behind, lag, now);
    }

    /** The first half of hearing a verdict: counting it. */
    method NoteVerdict(behind: bool, lag: Duration, queued: Option<Duration>, now: Instant)
      modifies this
      ensures Model() == Noted(old(Model()), behind, lag, queued, now)
    {
      heldUntil := None;
      verdicts := (2 * verdicts + (if behind then 1 else 0)) % 16;
      if behind {
        clear := None;
      } else if lag <= LAG_CLEAR {
        if clear.None? {
          clear := Some(ClearRun(now, 1, queued));
        } else {
          var run := clear.value;
          var most := if run.most.Some? && queued.Some?
                      then Some(Max(run.most.value, queued.value)) else None;
          clear := Some(ClearRun(run.since, run.count + 1, most));
        }
      } else if clear.Some? && clear.value.most.Some? {
        clear := Some(clear.value.(most := Some(lag)));
      }
    }

    /** Whether a step up was just taken well, and how long after a move this verdict waits. */
    method WaitsFor(behind: bool, lag: Duration) returns (climbing: bool, cooldown: Duration)
      ensures climbing == Climbing(Model()) && cooldown == Cooldown(Model(), behind, lag)
      ensures REFUSAL_COOLDOWN <= cooldown <= ADJUST_COOLDOWN
      ensures cooldown == REFUSAL_COOLDOWN
         <==> behind && reclaimed.Some? && changedAt == Some(reclaimed.value.at)
      ensures cooldown == ADJUST_COOLDOWN
         <==> && !(behind && reclaimed.Some? && changedAt == Some(reclaimed.value.at))
              && !(behind && lag >= LAG_HEAVY && steppedOn.Some?)
              && !climbing
    {
      climbing := && climbedAt.Some? && climbedAt == changedAt
                  && clear.Some? && clear.value.most.Some? && clear.value.most.value <= LAG_IDLE;
      if behind && reclaimed.Some? && changedAt == Some(reclaimed.value.at) {
        cooldown := REFUSAL_COOLDOWN;
      } else if behind && lag >= LAG_HEAVY && steppedOn.Some? {
        cooldown := HEAVY_COOLDOWN;
      } else if climbing {
        cooldown := CLIMB_SPAN;
      } else {
        cooldown := ADJUST_COOLDOWN;
      }
    }

    /** The second half: whether the dial moves on it. */
    method ActOn(behind: bool, lag: Duration, now: Instant) returns (moved: Option<Pace>)
      modifies this
      ensures Outcome(Model(), moved) == Acted(old(Model()), behind, lag, now)
    {
      hide GiveUp, TakeBack, Doubled, BehindCount;
      var climbing, cooldown := WaitsFor(behind, lag);
      var span := if climbing then CLIMB_SPAN else CLEAR_SPAN;
      hide Cooldown, Climbing;
      if changedAt.Some? && Elapsed(changedAt.value, now) < cooldown {
        return None;
      }
      ghost var turn := Decide(Model(), behind, lag, now);
      var dialMoved;
      if behind && BehindCount(verdicts) >= BEHIND_FRAMES {
        if steppedOn.Some? && lag + steppedOn.value / 5 < steppedOn.value {
          assert turn == Drains;
          steppedOn := Some(lag);
          changedAt := Some(now);
          return None;
        }
        var soon := changedAt.Some? && Elapsed(changedAt.value, now) < ADJUST_COOLDOWN;
        assert turn == GivesUp;
        dialMoved := GiveUpQuality(lag, now, soon);
      } else if clear.Some? && clear.value.count >= CLEAR_FRAMES && Elapsed(clear.value.since, now) >= span {
        assert turn == TakesBack;
        dialMoved := TakeBackQuality(now);
      } else {
        assert turn == Waits;
        return None;
      }
      if !dialMoved {
        return None;
      }
      verdicts := 0;
      clear := None;
      changedAt := Some(now);
      moved := Some(Pace(quality, Doubled(frame, slow)));
    }

    method SettleTiles(now: Instant)
      modifies this
      ensures Model() == Settle(old(Model()), now)
    {
      verdicts, clear, changedAt := 0, None, Some(now);
      steppedOn, reclaimed, climbedAt := None, None, None;
    }

    method KeyframeSent(now: Instant)
      modifies this
      ensures Model() == Keyframe(old(Model()), now)
    {
      verdicts, clear, steppedOn := 0, None, None;
      heldUntil := Some(now + KEYFRAME_HOLD);
    }

    method GiveUpQuality(lag: Duration, now: Instant, soon: bool) returns (moved: bool)
      modifies this
      ensures (Model(), moved) == GiveUp(old(Model()), lag, now, soon)
    {
      var steps := if lag >= LAG_SEVERE then 3 else if lag >= LAG_HEAVY then 2 else 1;
      moved := false;
      var onFloor := quality <= floor;
      if reclaimed.Some? && Elapsed(reclaimed.value.at, now) <= REFUSAL_WINDOW {
        var from := reclaimed.value.quality;
        refused := Some(Mark(RefusalCap(from, quality), now));
        if quality > from {
          quality := from;
          moved := true;
        }
      } else if !onFloor {
        quality := Max(Max(quality - 10 * steps, 0), floor);
        moved := true;
      }
      if (onFloor || (steps == 3 && !soon)) && slow < SLOW_MAX {
        slow := slow + 1;
        moved := true;
      }
      reclaim, reclaimed, climbedAt, steppedOn := STEP_UP, None, None, Some(lag);
    }

    method TakeBackQuality(now: Instant) returns (moved: bool)
      modifies this
      ensures (Model(), moved) == TakeBack(old(Model()), now)
    {
      if slow > 0 {
        slow := slow - 1;
        steppedOn, climbedAt := None, Some(now);
        return true;
      }
      if refused.Some? && Elapsed(refused.value.at, now) >= REFUSAL_HOLD {
        refused := None;
      }
      var top := if refused.Some? then Min(refused.value.quality, ceiling) else ceiling;
      var wanted := Min(Min(quality + reclaim, U8_MAX), top);
      if wanted <= quality {
        return false;
      }
      if wanted == top && top < ceiling {
        reclaim := STEP_UP;
      } else {
        reclaim := Min(Min(2 * reclaim, U8_MAX), STEP_UP_MAX);
      }
      reclaimed := Some(Mark(quality, now));
      quality := wanted;
      steppedOn, climbedAt := None, Some(now);
      return true;
    }
  }
}
