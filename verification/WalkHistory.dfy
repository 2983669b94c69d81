/** What the quality walk does, told from what it has heard and how it has moved rather than
    from the fields it keeps (src/walk.rs).
 */
module WalkHistory {
  import opened Options
  import opened QualityWalks
  import opened WalkInvariants
  import opened WalkRecovery
  import opened WalkLaws

  /** A verdict heard: how long a write blocked, the lag where it was measured, and when. */
  datatype Heard = Heard(blocked: Duration, lag: Option<Duration>, at: Instant)
  {
    function Worst(): Duration {
      if lag.Some? && lag.value > blocked then lag.value else blocked
    }

    predicate Behind() {
      blocked >= 20_000_000 || (lag.Some? && lag.value >= 60_000_000)
    }

    predicate Clear() {
      !Behind() && Worst() <= 30_000_000
    }

    /** Hardly anything queued, as measured. */
    predicate Idle() {
      lag.Some? && Worst() <= 15_000_000
    }
  }

  /** The verdicts heard since the dial last moved, a settle or a keyframe; when the walk last
      moved, settled or found the queue draining; whether that was a step up, and the quality it
      left where it was one of quality; and the lag of the last step down or draining queue, while
      nothing has come between. */
  datatype Account = Account(
    heard: seq<Heard>,
    looked: Option<Instant>,
    climbed: bool,
    raised: Option<Mark>,
    on: Option<Duration>)

  /** How many of the last so many were behind. */
  function BehindOfLast(h: seq<Heard>, n: nat): nat {
    if n == 0 || h == [] then 0
    else BehindOfLast(h[..|h| - 1], n - 1) + (if h[|h| - 1].Behind() then 1 else 0)
  }

  /** The verdicts from the first clear one since any behind. */
  function ClearRunOf(h: seq<Heard>): seq<Heard> {
    if h == [] || h[|h| - 1].Behind() then []
    else
      var before := ClearRunOf(h[..|h| - 1]);
      if before == [] && !h[|h| - 1].Clear() then [] else before + [h[|h| - 1]]
  }

  function ClearsIn(h: seq<Heard>): nat {
    if h == [] then 0 else ClearsIn(h[..|h| - 1]) + (if h[|h| - 1].Clear() then 1 else 0)
  }

  predicate AllIdle(h: seq<Heard>) {
    forall i :: 0 <= i < |h| ==> h[i].Idle()
  }

  /** A step up that the link has taken with nothing queued since. */
  predicate TookTheStep(a: Account) {
    a.climbed && ClearRunOf(a.heard) != [] && AllIdle(ClearRunOf(a.heard))
  }

  /** How long a verdict waits after the last look. */
  function Wait(a: Account): Duration
    requires a.heard != []
  {
    var last := a.heard[|a.heard| - 1];
    if last.Behind() && a.raised.Some? then 300_000_000
    else if last.Behind() && last.Worst() >= 150_000_000 && a.on.Some? then 500_000_000
    else if TookTheStep(a) then 500_000_000
    else 1_000_000_000
  }

  /** The lag has fallen by more than a fifth since it was last acted on. */
  predicate Falling(a: Account, lag: Duration) {
    a.on.Some? && 5 * (a.on.value - lag) > a.on.value
  }

  /** What becomes of a verdict, the last heard. */
  function Ruling(a: Account, now: Instant): Turn
    requires a.heard != []
  {
    var last := a.heard[|a.heard| - 1];
    var run := ClearRunOf(a.heard);
    if a.looked.Some? && now < a.looked.value + Wait(a) then Waits
    else if last.Behind() then
      if BehindOfLast(a.heard, 4) < 2 then Waits else if Falling(a, last.Worst()) then Drains else GivesUp
    else if ClearsIn(run) >= 4 && now >= run[0].at + (if TookTheStep(a) then 500_000_000 else 1_000_000_000)
    then TakesBack
    else Waits
  }

  predicate CanFall(w: Walk) {
    w.quality > w.floor || w.slow < 3
  }

  predicate CanRise(w: Walk, now: Instant) {
    w.slow > 0 || w.quality < Cap(w, now)
  }

  function HeardOf(v: Verdict, at: Instant): Heard {
    Heard(v.blocked, v.lag, at)
  }

  /** The account once a ruling on the last verdict is carried out. */
  function Ruled(a: Account, w: Walk, now: Instant): Account
    requires a.heard != []
  {
    var lag := a.heard[|a.heard| - 1].Worst();
    match Ruling(a, now)
    case Waits => a
    case Drains => a.(looked := Some(now), on := Some(lag))
    case GivesUp =>
      if CanFall(w) then Account([], Some(now), false, None, Some(lag))
      else a.(climbed := false, raised := None, on := Some(lag))
    case TakesBack =>
      if !CanRise(w, now) then a
      else Account([], Some(now), true, if w.slow > 0 then None else Some(Mark(w.quality, now)), None)
  }

  function AccountAfter(a: Account, w: Walk, c: TimedCall): Account {
    if c.call.Settled? then Account([], Some(c.now), false, None, None)
    else if c.call.KeyframeSent? then a.(heard := [], on := None)
    else if VerdictOf(w, c).None? || Held(w, c.now) then a
    else Ruled(a.(heard := a.heard + [HeardOf(VerdictOf(w, c).value, c.now)]), w, c.now)
  }

  /** The account of a run. */
  function AccountOf(a: Account, w: Walk, calls: seq<TimedCall>): Account
    decreases |calls|
  {
    if calls == [] then a else AccountOf(AccountAfter(a, w, calls[0]), Step(w, calls[0]).walk, calls[1..])
  }

  const NOTHING: Account := Account([], None, false, None, None)

  // ----- the walk's fields say the same

  /** The last verdicts as the walk keeps them, the newest the lowest bit. */
  function Bits(h: seq<Heard>, n: nat): nat {
    if n == 0 || h == [] then 0
    else 2 * Bits(h[..|h| - 1], n - 1) + (if h[|h| - 1].Behind() then 1 else 0)
  }

  predicate AllMeasured(h: seq<Heard>) {
    forall i :: 0 <= i < |h| ==> h[i].lag.Some?
  }

  /** What the walk keeps of a clear run is what its verdicts say. */
  predicate IsRun(clear: Option<ClearRun>, run: seq<Heard>) {
    && (clear.None? <==> run == [])
    && (clear.Some? ==>
          && clear.value.count == ClearsIn(run) && clear.value.since == run[0].at
          && (clear.value.most.Some? <==> AllMeasured(run))
          && (clear.value.most.Some? ==> (clear.value.most.value <= LAG_IDLE <==> AllIdle(run))))
  }

  predicate Agrees(w: Walk, a: Account) {
    && w.verdicts == Bits(a.heard, 4)
    && IsRun(w.clear, ClearRunOf(a.heard))
    && w.changedAt == a.looked
    && (a.climbed <==> w.climbedAt.Some? && w.climbedAt == w.changedAt)
    && w.reclaimed == a.raised
    && (a.raised.Some? ==> a.looked == Some(a.raised.value.at))
    && w.steppedOn == a.on
    && (a.on.Some? ==> w.climbedAt.None? && a.raised.None?)
  }

  lemma {:induction false} BitsFit(h: seq<Heard>)
    ensures Bits(h, 0) == 0 && Bits(h, 1) < 2 && Bits(h, 2) < 4 && Bits(h, 3) < 8 && Bits(h, 4) < 16
    ensures Bits(h, 4) % 8 == Bits(h, 3) && Bits(h, 3) % 4 == Bits(h, 2) && Bits(h, 2) % 2 == Bits(h, 1)
    decreases |h|
  {
    if h != [] {
      BitsFit(h[..|h| - 1]);
    }
  }

  function Bit(h: seq<Heard>): nat {
    if h != [] && h[|h| - 1].Behind() then 1 else 0
  }

  function Front(h: seq<Heard>): seq<Heard> {
    if h == [] then [] else h[..|h| - 1]
  }

  lemma FourBits(a: nat, b: nat, c: nat, d: nat)
    requires a <= 1 && b <= 1 && c <= 1 && d <= 1
    ensures BehindCount(a + 2 * b + 4 * c + 8 * d) == a + b + c + d
  {}

  lemma BitsCount(h: seq<Heard>)
    ensures BehindCount(Bits(h, 4)) == BehindOfLast(h, 4)
  {
    var a := Front(h);
    var b := Front(a);
    var c := Front(b);
    FourBits(Bit(h), Bit(a), Bit(b), Bit(c));
    assert Bits(c, 1) == BehindOfLast(c, 1) == Bit(c);
    assert Bits(b, 2) == 2 * Bits(c, 1) + Bit(b) && BehindOfLast(b, 2) == BehindOfLast(c, 1) + Bit(b);
    assert Bits(a, 3) == 2 * Bits(b, 2) + Bit(a) && BehindOfLast(a, 3) == BehindOfLast(b, 2) + Bit(a);
    assert Bits(h, 4) == 2 * Bits(a, 3) + Bit(h) && BehindOfLast(h, 4) == BehindOfLast(a, 3) + Bit(h);
  }

  lemma Shifted(bits: nat, bit: nat)
    requires bits < 16 && bit <= 1
    ensures (2 * bits + bit) % 16 == 2 * (bits % 8) + bit
  {}

  lemma NotedBits(bits: nat, h: seq<Heard>, x: Heard)
    requires bits == Bits(h, 4)
    ensures (2 * bits + (if x.Behind() then 1 else 0)) % 16 == Bits(h + [x], 4)
  {
    var more := h + [x];
    assert more[..|more| - 1] == h;
    assert Bits(more, 4) == 2 * Bits(h, 3) + (if x.Behind() then 1 else 0);
    BitsFit(h);
    Shifted(bits, if x.Behind() then 1 else 0);
    hide Bits;
  }

  lemma VerdictIs(v: Verdict, at: Instant)
    ensures v.Behind() == HeardOf(v, at).Behind() && v.Worst() == HeardOf(v, at).Worst()
    ensures v.Queued() == if v.lag.Some? then Some(HeardOf(v, at).Worst()) else None
  {}

  /** One more verdict in a run. */
  lemma RunGrows(run: seq<Heard>, x: Heard)
    ensures AllMeasured(run + [x]) <==> AllMeasured(run) && x.lag.Some?
    ensures AllIdle(run + [x]) <==> AllIdle(run) && x.Idle()
    ensures ClearsIn(run + [x]) == ClearsIn(run) + (if x.Clear() then 1 else 0)
  {
    var more := run + [x];
    assert more[..|more| - 1] == run && more[|run|] == x;
    assert forall i :: 0 <= i < |run| ==> more[i] == run[i];
  }

  lemma ClearAfterIsRun(clear: Option<ClearRun>, h: seq<Heard>, x: Heard)
    requires IsRun(clear, ClearRunOf(h))
    ensures IsRun(ClearAfter(clear, x.Behind(), x.Worst(), if x.lag.Some? then Some(x.Worst()) else None, x.at),
                  ClearRunOf(h + [x]))
  {
    var run := ClearRunOf(h);
    assert (h + [x])[..|h|] == h;
    RunGrows(run, x);
    RunGrows([], x);
    assert ClearsIn([]) == 0 && [] + [x] == [x];
    hide ClearRunOf, ClearsIn, AllMeasured, AllIdle;
    assert ClearRunOf(h + [x]) == if x.Behind() || (run == [] && !x.Clear()) then [] else run + [x] by {
      RunOfMore(h, x);
    }
  }

  lemma RunOfMore(h: seq<Heard>, x: Heard)
    ensures ClearRunOf(h + [x])
         == if x.Behind() || (ClearRunOf(h) == [] && !x.Clear()) then [] else ClearRunOf(h) + [x]
  {
    assert (h + [x])[..|h|] == h;
  }

  lemma NotedAgrees(w: Walk, a: Account, v: Verdict, now: Instant)
    requires Agrees(w, a)
    ensures Agrees(Counted(w, v, now), a.(heard := a.heard + [HeardOf(v, now)]))
  {
    var x := HeardOf(v, now);
    VerdictIs(v, now);
    NotedBits(w.verdicts, a.heard, x);
    ClearAfterIsRun(w.clear, a.heard, x);
    hide IsRun, ClearRunOf, Bits, ClearAfter, IsBehind;
  }

  /** What the fields decide is what the account does. */
  lemma DecideIsRuling(n: Walk, a: Account, now: Instant)
    requires Inv(n, now) && Agrees(n, a) && a.heard != [] && a.heard[|a.heard| - 1].at == now
    ensures var last := a.heard[|a.heard| - 1]; Decide(n, last.Behind(), last.Worst(), now) == Ruling(a, now)
  {
    BitsCount(a.heard);
    ClimbingIs(n, a);
    var last := a.heard[|a.heard| - 1];
    assert Draining(n, last.Worst()) == Falling(a, last.Worst());
    assert last.Behind() ==> n.clear.None?;
    assert Cooldown(n, last.Behind(), last.Worst()) == Wait(a) by { hide Bits, BehindCount, ClearRunOf, IsRun; }
    hide BehindCount, Bits, BehindOfLast, ClearRunOf, ClearsIn, AllIdle, AllMeasured, Draining, Falling, Wait, Cooldown;
  }

  lemma ClimbingIs(n: Walk, a: Account)
    requires Agrees(n, a)
    ensures Climbing(n) == TookTheStep(a)
  {
    hide Bits, ClearRunOf, AllMeasured, AllIdle, ClearsIn;
    if ClearRunOf(a.heard) != [] && AllIdle(ClearRunOf(a.heard)) {
      IdleIsMeasured(ClearRunOf(a.heard));
    }
  }

  lemma IdleIsMeasured(run: seq<Heard>)
    requires AllIdle(run)
    ensures AllMeasured(run)
  {}

  // ----- every step

  /** A step down's fields, and a step up's. */
  lemma StepsKeep(n: Walk, lag: Duration, now: Instant)
    requires Inv(n, now)
    ensures forall soon :: var (v, moved) := GiveUp(n, lag, now, soon);
              && moved == CanFall(n) && v.verdicts == n.verdicts && v.clear == n.clear && v.changedAt == n.changedAt
              && v.climbedAt.None? && v.reclaimed.None? && v.steppedOn == Some(lag)
    ensures var (v, moved) := TakeBack(n, now);
            && moved == CanRise(n, now) && v.verdicts == n.verdicts && v.clear == n.clear
            && v.changedAt == n.changedAt
            && (moved ==>
                  && v.climbedAt == Some(now) && v.steppedOn.None?
                  && v.reclaimed == if n.slow > 0 then None else Some(Mark(n.quality, now)))
            && (!moved ==> v.climbedAt == n.climbedAt && v.steppedOn == n.steppedOn && v.reclaimed == n.reclaimed)
  {}

  lemma ActedAgrees(n: Walk, a: Account, now: Instant)
    requires Inv(n, now) && Agrees(n, a) && a.heard != [] && a.heard[|a.heard| - 1].at == now
    ensures var last := a.heard[|a.heard| - 1];
            Agrees(Acted(n, last.Behind(), last.Worst(), now).walk, Ruled(a, n, now))
  {
    DecideIsRuling(n, a, now);
    StepsKeep(n, a.heard[|a.heard| - 1].Worst(), now);
    assert Bits([], 4) == 0 && ClearRunOf([]) == [];
    hide Decide, Ruling, GiveUp, TakeBack, CanFall, CanRise, Bits, ClearRunOf, Inv, Doubled, AllIdle, AllMeasured;
  }

  lemma StepAgrees(w: Walk, a: Account, c: TimedCall, t: Instant)
    requires Inv(w, t) && t <= c.now && Agrees(w, a)
    ensures Agrees(Step(w, c).walk, AccountAfter(a, w, c))
  {
    if c.call.Settled? || c.call.KeyframeSent? {
      assert Bits([], 4) == 0 && ClearRunOf([]) == [];
      hide Bits, ClearRunOf;
    } else if VerdictOf(w, c).Some? && !Held(w, c.now) {
      HeardAgrees(w, a, c, t);
    } else {
      StepUnheard(w, c);
      hide Step, Bits, ClearRunOf;
    }
  }

  /** The walk once a verdict is counted, and its account. */
  lemma CountedAgrees(w: Walk, a: Account, c: TimedCall, t: Instant)
    requires Inv(w, t) && t <= c.now && Agrees(w, a) && VerdictOf(w, c).Some? && !Held(w, c.now)
    ensures var v := VerdictOf(w, c).value;
            var n := Counted(Measured(w, c), v, c.now);
            && Inv(n, c.now) && Agrees(n, a.(heard := a.heard + [HeardOf(v, c.now)]))
            && n == w.(recent := n.recent, heldUntil := None, verdicts := n.verdicts, clear := n.clear)
            && Step(w, c) == Acted(n, HeardOf(v, c.now).Behind(), HeardOf(v, c.now).Worst(), c.now)
  {
    var (v, m) := (VerdictOf(w, c).value, Measured(w, c));
    StepHears(w, c);
    assert Inv(m, t) && Agrees(m, a);
    NotedAgrees(m, a, v, c.now);
    NotedInv(m, v.Behind(), v.Worst(), v.Queued(), t, c.now);
    VerdictIs(v, c.now);
    hide Step, Acted, ClearAfter, Agrees, Inv, IsBehind, Baseline, Popped, Queueing;
  }

  lemma HeardAgrees(w: Walk, a: Account, c: TimedCall, t: Instant)
    requires Inv(w, t) && t <= c.now && Agrees(w, a) && VerdictOf(w, c).Some? && !Held(w, c.now)
    ensures Agrees(Step(w, c).walk, AccountAfter(a, w, c))
  {
    CountedAgrees(w, a, c, t);
    var v := VerdictOf(w, c).value;
    var n := Counted(Measured(w, c), v, c.now);
    var b := a.(heard := a.heard + [HeardOf(v, c.now)]);
    hide Step, Acted, Counted, Agrees, Inv, VerdictOf, Measured, Held;
    ActedAgrees(n, b, c.now);
    RuledAlike(b, w, n, c.now);
  }

  lemma RuledAlike(a: Account, w: Walk, n: Walk, now: Instant)
    requires n == w.(recent := n.recent, heldUntil := None, verdicts := n.verdicts, clear := n.clear) && a.heard != []
    ensures Ruled(a, n, now) == Ruled(a, w, now)
  {
    hide Ruling;
  }

  lemma StepUnheard(w: Walk, c: TimedCall)
    requires !c.call.Settled? && !c.call.KeyframeSent? && (VerdictOf(w, c).None? || Held(w, c.now))
    ensures var o := Step(w, c); o.moved.None? && o.walk == w.(recent := o.walk.recent)
  {
    hide Acted, Noted, Baseline, Popped, Queueing, IsBehind;
  }

  lemma {:induction false} RunAgrees(w: Walk, a: Account, calls: seq<TimedCall>, t: Instant)
    requires Inv(w, t) && Ordered(calls, t) && Agrees(w, a)
    ensures Agrees(Run(w, calls), AccountOf(a, w, calls))
    decreases |calls|
  {
    hide Step, Agrees, AccountAfter, Inv;
    if calls != [] {
      StepAgrees(w, a, calls[0], t);
      StepInv(w, calls[0], t);
      RunAgrees(Step(w, calls[0]).walk, AccountAfter(a, w, calls[0]), calls[1..], calls[0].now);
    }
  }

  // ----- what each verdict does

  /** Quality or frames given up. */
  predicate Fell(v: Walk, w: Walk) {
    w.quality < v.quality || w.slow > v.slow
  }

  predicate Rose(v: Walk, w: Walk) {
    w.quality > v.quality || w.slow < v.slow
  }

  /** The quality a step down on a lag leaves: what the step up it answers had left, or 10, 20 or
      30 less, down to the floor. */
  function Lowered(w: Walk, a: Account, lag: Duration, now: Instant): int {
    if a.raised.Some? && now - a.raised.value.at <= 4_000_000_000 then a.raised.value.quality
    else
      var less := if lag < 150_000_000 then 10 else if lag < 400_000_000 then 20 else 30;
      if w.quality - less < w.floor then w.floor else w.quality - less
  }

  /** And the frames: halved on the floor, and on a severe lag a second after the last look. */
  function Slowed(w: Walk, a: Account, lag: Duration, now: Instant): nat {
    var late := a.looked.None? || now - a.looked.value >= 1_000_000_000;
    if w.slow < 3 && (w.quality <= w.floor || (lag >= 400_000_000 && late)) then w.slow + 1 else w.slow
  }

  function Raised(w: Walk, now: Instant): nat {
    if w.slow > 0 then w.quality
    else if w.quality + w.reclaim < Cap(w, now) then w.quality + w.reclaim
    else Cap(w, now)
  }

  /** A verdict has the walk fall exactly when the account rules that it does and there is
      something left to give, rise exactly when it rules so and there is something to take back,
      and stand otherwise; and by how much. */
  predicate MovesAsRuled(w: Walk, a: Account, now: Instant, x: Walk)
    requires a.heard != []
  {
    var (ruling, lag) := (Ruling(a, now), a.heard[|a.heard| - 1].Worst());
    && (Fell(w, x) <==> ruling == GivesUp && CanFall(w))
    && (Rose(w, x) <==> ruling == TakesBack && CanRise(w, now))
    && (Fell(w, x) ==> x.quality == Lowered(w, a, lag, now) && x.slow == Slowed(w, a, lag, now))
    && (Rose(w, x) ==> x.quality == Raised(w, now) && x.slow == if w.slow > 0 then w.slow - 1 else 0)
    && (!Fell(w, x) && !Rose(w, x) ==> x.quality == w.quality && x.slow == w.slow)
  }

  lemma ActedMoves(n: Walk, a: Account, now: Instant)
    requires Inv(n, now) && Agrees(n, a) && a.heard != [] && a.heard[|a.heard| - 1].at == now
    ensures var last := a.heard[|a.heard| - 1];
            MovesAsRuled(n, a, now, Acted(n, last.Behind(), last.Worst(), now).walk)
  {
    var lag := a.heard[|a.heard| - 1].Worst();
    var soon := n.changedAt.Some? && Elapsed(n.changedAt.value, now) < ADJUST_COOLDOWN;
    DecideIsRuling(n, a, now);
    FallsAsRuled(n, a, lag, now, soon);
    StepDownTells(n, lag, now, soon);
    StepUpTells(n, now);
    RisesAsRuled(n, now);
    StepsKeep(n, lag, now);
    PlaceOf(n, a.heard[|a.heard| - 1].Behind(), lag, now, soon);
    hide Decide, Acted, Ruling, GiveUp, TakeBack, Agrees, Inv, Cap, Lowered, Slowed, Raised, CanFall, CanRise;
  }

  /** Where a walk stands once it has acted. */
  lemma PlaceOf(n: Walk, behind: bool, lag: Duration, now: Instant, soon: bool)
    requires soon == (n.changedAt.Some? && Elapsed(n.changedAt.value, now) < ADJUST_COOLDOWN)
    ensures var x := Acted(n, behind, lag, now).walk;
            match Decide(n, behind, lag, now)
            case Waits => x.quality == n.quality && x.slow == n.slow
            case Drains => x.quality == n.quality && x.slow == n.slow
            case GivesUp =>
              var v := GiveUp(n, lag, now, soon).0; x.quality == v.quality && x.slow == v.slow
            case TakesBack =>
              var v := TakeBack(n, now).0; x.quality == v.quality && x.slow == v.slow
  {
    hide Decide, GiveUp, TakeBack, Doubled;
  }

  lemma RisesAsRuled(n: Walk, now: Instant)
    requires Inv(n, now)
    ensures var (v, moved) := TakeBack(n, now);
            moved ==> v.quality == Raised(n, now) && v.slow == if n.slow > 0 then n.slow - 1 else 0
  {
    StepUpInNumbers(n, now);
    hide TakeBack, Inv, Cap;
  }

  lemma FallsAsRuled(n: Walk, a: Account, lag: Duration, now: Instant, soon: bool)
    requires Inv(n, now) && Agrees(n, a)
    requires soon == (n.changedAt.Some? && Elapsed(n.changedAt.value, now) < ADJUST_COOLDOWN)
    ensures var (v, moved) := GiveUp(n, lag, now, soon);
            v.quality == Lowered(n, a, lag, now) && v.slow == Slowed(n, a, lag, now)
  {
    if n.reclaimed.Some? && now - n.reclaimed.value.at <= 4_000_000_000 {
      StepBackInNumbers(n, lag, now, soon);
    } else {
      StepDownInNumbers(n, lag, now, soon);
    }
    hide GiveUp, IsRun, ClearRunOf, Bits;
  }

  lemma MovesAlike(w: Walk, n: Walk, a: Account, now: Instant, x: Walk)
    requires n == w.(recent := n.recent, heldUntil := None, verdicts := n.verdicts, clear := n.clear)
    requires a.heard != [] && MovesAsRuled(n, a, now, x)
    ensures MovesAsRuled(w, a, now, x)
  {
    hide Ruling;
  }

  lemma HeardMoves(w: Walk, a: Account, c: TimedCall, t: Instant)
    requires Inv(w, t) && t <= c.now && Agrees(w, a) && VerdictOf(w, c).Some? && !Held(w, c.now)
    ensures var b := a.(heard := a.heard + [HeardOf(VerdictOf(w, c).value, c.now)]);
            MovesAsRuled(w, b, c.now, Step(w, c).walk)
  {
    CountedAgrees(w, a, c, t);
    var v := VerdictOf(w, c).value;
    var n := Counted(Measured(w, c), v, c.now);
    var b := a.(heard := a.heard + [HeardOf(v, c.now)]);
    hide Step, Acted, Counted, Agrees, Inv, VerdictOf, Measured, Held, MovesAsRuled;
    ActedMoves(n, b, c.now);
    MovesAlike(w, n, b, c.now, Step(w, c).walk);
  }

  /** That, of every verdict heard in every run of a session; and what is not heard moves
      nothing. */
  lemma EveryMoveIsRuled(ceiling: nat, frame: Duration, adaptive: bool, calls: seq<TimedCall>, c: TimedCall,
                         t: Instant)
    requires Ordered(calls, t) && EndOf(calls, t) <= c.now
    ensures var start := New(ceiling, frame, adaptive);
            var w := Run(start, calls);
            var x := Step(w, c).walk;
            if VerdictOf(w, c).Some? && !Held(w, c.now) then
              var a := AccountOf(NOTHING, start, calls);
              MovesAsRuled(w, a.(heard := a.heard + [HeardOf(VerdictOf(w, c).value, c.now)]), c.now, x)
            else x.quality == w.quality && x.slow == w.slow
  {
    var start := New(ceiling, frame, adaptive);
    NewInv(ceiling, frame, adaptive, t);
    RunInv(start, calls, t);
    assert Agrees(start, NOTHING);
    RunAgrees(start, NOTHING, calls, t);
    var w := Run(start, calls);
    if VerdictOf(w, c).Some? && !Held(w, c.now) {
      hide *;
      HeardMoves(w, AccountOf(NOTHING, start, calls), c, EndOf(calls, t));
    } else {
      StepNotes(w, c);
    }
  }

  // ----- what a fence says

  /** A fence come back is heard, where it is to be, as a frame behind by what its delivery took
      over the least of the last minute's. */
  lemma AFenceIsHeardAsQueueing(ceiling: nat, frame: Duration, calls: seq<TimedCall>, c: TimedCall, t: Instant)
    requires Ordered(calls + [c], t) && c.call.Fenced? && c.call.verdict
    ensures var v := VerdictOf(Run(New(ceiling, frame, true), calls), c);
            var all := Deliveries(calls + [c]);
            && v.Some? && v.value.blocked == 0 && v.value.lag.Some?
            && (forall d :: d in all && c.now - d.at <= 60_000_000_000 ==> c.call.took - d.took <= v.value.lag.value)
            && (exists d :: d in all && c.now - d.at <= 60_000_000_000 && c.call.took - d.took == v.value.lag.value)
  {
    var start := New(ceiling, frame, true);
    var w := Run(start, calls);
    FloorIsTheWindowsLeast(ceiling, frame, calls + [c], t);
    RunOneMore(start, calls, c);
    RunConstants(start, calls);
    LeastIsNoMore(w, c);
    hide Run, Deliveries, Baseline, Popped, Acted, Noted;
  }

  lemma LeastIsNoMore(w: Walk, c: TimedCall)
    requires w.lagAware && c.call.Fenced?
    ensures var recent := Step(w, c).walk.recent;
            recent == WithDelivery(w, c.call.took, c.now).recent && Baseline(recent) <= c.call.took
  {
    hide Popped, Acted, Noted, Baseline;
    BaselineIsLeast(WithDelivery(w, c.call.took, c.now).recent);
    assert WithDelivery(w, c.call.took, c.now).recent[|Popped(w.recent, c.now)|].took == c.call.took;
  }

  lemma {:induction false} RunOneMore(w: Walk, calls: seq<TimedCall>, c: TimedCall)
    ensures Run(w, calls + [c]) == Step(Run(w, calls), c).walk
    decreases |calls|
  {
    hide Step;
    if calls != [] {
      assert (calls + [c])[1..] == calls[1..] + [c];
      RunOneMore(Step(w, calls[0]).walk, calls[1..], c);
    } else {
      assert [c][1..] == [];
    }
  }
}
