/** The virtual displays a client asks sway for, made and unplugged one at a time
    (src/sway.rs, src/compositor.rs).
 */
module VirtualDisplayCounts {
  import opened Options

  /** The most a client may ask for. */
  const MOST: nat := 2
  const U32_LIMIT: nat := 0x1_0000_0000

  datatype Step = Settled | Create | Unplug(name: string)

  // ----- the number in an output's name

  /** What follows the last dash. */
  function LastPart(name: string): string {
    if name == "" || name[|name| - 1] == '-' then ""
    else LastPart(name[..|name| - 1]) + [name[|name| - 1]]
  }

  predicate IsDigit(c: char) {
    '0' <= c <= '9'
  }

  predicate AllDigits(s: string) {
    forall i :: 0 <= i < |s| ==> IsDigit(s[i])
  }

  function Value(s: string): nat
    requires AllDigits(s)
  {
    if s == "" then 0 else 10 * Value(s[..|s| - 1]) + (s[|s| - 1] as int - '0' as int)
  }

  /** An unsigned number of 32 bits, which may open with a plus. */
  function Parsed(s: string): Option<nat> {
    var digits := if s != "" && s[0] == '+' then s[1..] else s;
    if digits == "" || !AllDigits(digits) || Value(digits) >= U32_LIMIT then None else Some(Value(digits))
  }

  function Number(name: string): nat {
    Parsed(LastPart(name)).GetOr(0)
  }

  /** A number as wlroots writes it. */
  function Decimal(n: nat): string {
    (if n < 10 then "" else Decimal(n / 10)) + [(n % 10 + '0' as int) as char]
  }

  lemma {:induction false} DecimalValue(n: nat)
    ensures Decimal(n) != "" && AllDigits(Decimal(n)) && Value(Decimal(n)) == n
  {
    if n >= 10 {
      DecimalValue(n / 10);
    }
    assert Decimal(n)[..|Decimal(n)| - 1] == if n < 10 then "" else Decimal(n / 10);
  }

  lemma {:induction false} PartAfterDash(prefix: string, digits: string)
    requires '-' !in digits
    ensures LastPart(prefix + "-" + digits) == digits
  {
    var name := prefix + "-" + digits;
    if digits != "" {
      PartAfterDash(prefix, digits[..|digits| - 1]);
      assert name[..|name| - 1] == prefix + "-" + digits[..|digits| - 1];
      assert digits[|digits| - 1] in digits;
    }
  }

  /** A name made of anything, a dash and a number has that number, as far as it fits, a plus
      before it or not; and one that ends in anything else has none. */
  lemma NumberOfName(prefix: string, n: nat)
    ensures Number(prefix + "-" + Decimal(n)) == if n < U32_LIMIT then n else 0
    ensures Number(prefix + "-+" + Decimal(n)) == if n < U32_LIMIT then n else 0
  {
    var digits := Decimal(n);
    DecimalValue(n);
    assert '-' !in digits && IsDigit(digits[0]);
    NumberAfterDash(prefix, digits);
    NumberAfterDash(prefix, "+" + digits);
    ParsedDigits(digits);
    DashPlus(prefix, digits);
    hide *;
  }

  lemma DashPlus(prefix: string, digits: string)
    ensures prefix + "-+" + digits == prefix + "-" + ("+" + digits)
  {}

  lemma NumberAfterDash(prefix: string, last: string)
    requires '-' !in last
    ensures Number(prefix + "-" + last) == Parsed(last).GetOr(0)
  {
    PartAfterDash(prefix, last);
    hide LastPart, Parsed;
  }

  /** Digits alone and digits after a plus are their value. */
  lemma ParsedDigits(digits: string)
    requires digits != "" && AllDigits(digits)
    ensures Parsed(digits) == Parsed("+" + digits) == if Value(digits) < U32_LIMIT then Some(Value(digits)) else None
  {
    assert IsDigit(digits[0]);
    assert ("+" + digits)[1..] == digits;
    hide Value;
  }

  lemma NoNumberOfName(prefix: string, last: string)
    requires '-' !in last
    requires last == "" || last == "+" || exists i :: 1 <= i < |last| && !IsDigit(last[i])
    ensures Number(prefix + "-" + last) == 0
  {
    PartAfterDash(prefix, last);
    if i :| 1 <= i < |last| && !IsDigit(last[i]) {
      assert last[1..][i - 1] == last[i];
    }
  }

  // ----- the step

  /** Those that may go: every one but the one shared. */
  function Candidates(headless: seq<string>, shared: Option<string>): seq<string> {
    if headless == [] then []
    else
      var last := headless[|headless| - 1];
      Candidates(headless[..|headless| - 1], shared) + (if Some(last) != shared then [last] else [])
  }

  /** Whether `a` goes before `b`: the configured one last, and a higher number first. */
  predicate GoesBefore(a: string, b: string, preferred: Option<string>) {
    if (Some(a) == preferred) == (Some(b) == preferred) then Number(a) > Number(b) else Some(b) == preferred
  }

  /** The one that goes first, the first listed of those that go together. */
  function GoesFirst(candidates: seq<string>, preferred: Option<string>): Option<string> {
    if candidates == [] then None
    else
      var last := candidates[|candidates| - 1];
      var before := GoesFirst(candidates[..|candidates| - 1], preferred);
      if before.Some? && !GoesBefore(last, before.value, preferred) then before else Some(last)
  }

  function StepTowards(wanted: nat, headless: seq<string>, shared: Option<string>, preferred: Option<string>): Step {
    if |headless| < wanted then Create
    else if |headless| == wanted then Settled
    else
      var first := GoesFirst(Candidates(headless, shared), preferred);
      if first.Some? then Unplug(first.value) else Settled
  }

  /** The output at `i` is not the shared one, none that is not goes before it, and those
      listed earlier go after it. */
  predicate IsFirstToGo(headless: seq<string>, shared: Option<string>, preferred: Option<string>, i: nat)
    requires i < |headless|
  {
    && Some(headless[i]) != shared
    && forall j :: 0 <= j < |headless| && Some(headless[j]) != shared ==>
         && !GoesBefore(headless[j], headless[i], preferred)
         && (j < i ==> GoesBefore(headless[i], headless[j], preferred))
  }

  lemma LaterGoesAfter(front: seq<string>, last: string, shared: Option<string>, preferred: Option<string>, i: nat)
    requires i < |front| && IsFirstToGo(front, shared, preferred, i)
    requires Some(last) == shared || !GoesBefore(last, front[i], preferred)
    ensures IsFirstToGo(front + [last], shared, preferred, i)
  {
    hide GoesBefore;
  }

  /** The last goes first where it goes before what goes first of the others. */
  lemma LaterGoesFirst(front: seq<string>, last: string, shared: Option<string>, preferred: Option<string>, i: nat)
    requires i < |front| && IsFirstToGo(front, shared, preferred, i)
    requires Some(last) != shared && GoesBefore(last, front[i], preferred)
    ensures IsFirstToGo(front + [last], shared, preferred, |front|)
  {
    hide Number;
    var all := front + [last];
    forall j | 0 <= j < |all| && Some(all[j]) != shared
      ensures !GoesBefore(all[j], last, preferred) && (j < |front| ==> GoesBefore(last, all[j], preferred))
    {
      if j < |front| {
        assert !GoesBefore(front[j], front[i], preferred);
      }
    }
  }

  lemma {:induction false} FirstToGo(headless: seq<string>, shared: Option<string>, preferred: Option<string>)
    ensures var first := GoesFirst(Candidates(headless, shared), preferred);
            && (first.None? <==> forall i :: 0 <= i < |headless| ==> Some(headless[i]) == shared)
            && (first.Some? ==>
                  exists i :: 0 <= i < |headless| && headless[i] == first.value
                              && IsFirstToGo(headless, shared, preferred, i))
  {
    if headless != [] {
      var front, last := headless[..|headless| - 1], headless[|headless| - 1];
      FirstToGo(front, shared, preferred);
      var before := GoesFirst(Candidates(front, shared), preferred);
      var all := Candidates(headless, shared);
      assert headless == front + [last];
      assert Some(last) == shared ==> all == Candidates(front, shared);
      assert Some(last) != shared ==> all[..|all| - 1] == Candidates(front, shared) && all[|all| - 1] == last;
      hide GoesBefore, IsFirstToGo, Candidates;
      if before.Some? {
        var i :| 0 <= i < |front| && front[i] == before.value && IsFirstToGo(front, shared, preferred, i);
        assert headless[i] == before.value;
        if Some(last) == shared || !GoesBefore(last, before.value, preferred) {
          LaterGoesAfter(front, last, shared, preferred, i);
        } else {
          LaterGoesFirst(front, last, shared, preferred, i);
        }
      } else if Some(last) != shared {
        OnlyOneToGo(front, last, shared, preferred);
        assert headless[|front|] == last;
      } else {
        assert forall i :: 0 <= i < |front| ==> Some(front[i]) == shared;
      }
    }
  }

  lemma OnlyOneToGo(front: seq<string>, last: string, shared: Option<string>, preferred: Option<string>)
    requires forall i :: 0 <= i < |front| ==> Some(front[i]) == shared
    requires Some(last) != shared
    ensures IsFirstToGo(front + [last], shared, preferred, |front|)
  {
    hide Number;
  }

  /** The step, as the source promises it: one is made exactly when there are too few; nothing
      is done exactly when there are enough or only the shared one could go; and what is
      unplugged is not shared, the configured one only where it is alone, and otherwise of
      the highest number. */
  lemma StepMeans(wanted: nat, headless: seq<string>, shared: Option<string>, preferred: Option<string>)
    ensures var step := StepTowards(wanted, headless, shared, preferred);
            && (step == Create <==> |headless| < wanted)
            && (step == Settled <==>
                  |headless| == wanted
                  || (|headless| > wanted && forall name :: name in headless ==> Some(name) == shared))
            && (forall name :: step == Unplug(name) ==>
                  && name in headless && Some(name) != shared
                  && (Some(name) == preferred ==>
                        forall other :: other in headless ==> other == name || Some(other) == shared)
                  && (Some(name) != preferred ==>
                        forall other :: other in headless && Some(other) != shared && Some(other) != preferred ==>
                          Number(other) <= Number(name)))
  {
    hide Number;
    FirstToGo(headless, shared, preferred);
    var first := GoesFirst(Candidates(headless, shared), preferred);
    if |headless| > wanted && first.Some? {
      var i :| 0 <= i < |headless| && headless[i] == first.value && IsFirstToGo(headless, shared, preferred, i);
      forall other | other in headless && Some(other) != shared
        ensures !GoesBefore(other, first.value, preferred)
      {
        var j :| 0 <= j < |headless| && headless[j] == other;
        assert !GoesBefore(headless[j], headless[i], preferred);
      }
    } else if |headless| > wanted {
      forall name | name in headless ensures Some(name) == shared {
        var j :| 0 <= j < |headless| && headless[j] == name;
        assert Some(headless[j]) == shared;
      }
    }
  }

  /** Of outputs with different names, something can go while more than one is there. */
  lemma SomethingCanGo(wanted: nat, headless: seq<string>, shared: Option<string>, preferred: Option<string>)
    requires wanted >= 1 && Distinct(headless) && |headless| > wanted
    ensures StepTowards(wanted, headless, shared, preferred).Unplug?
  {
    StepMeans(wanted, headless, shared, preferred);
    hide StepTowards;
    assert headless[0] in headless && headless[1] in headless && headless[0] != headless[1];
  }

  predicate Distinct(names: seq<string>) {
    forall i, j :: 0 <= i < j < |names| ==> names[i] != names[j]
  }

  // ----- the step in flight

  datatype Displays = Displays(wanted: Option<nat>, creating: Option<seq<string>>, unplugging: Option<string>)
  {
    predicate Idle() { creating.None? && unplugging.None? }
  }

  /** What the desktop is on and what the configuration names, and whether sway accepts a
      request made now. */
  datatype View = View(shared: Option<string>, preferred: Option<string>, accepted: bool)

  predicate HasNew(before: seq<string>, headless: seq<string>) {
    exists i :: 0 <= i < |headless| && headless[i] !in before
  }

  /** The steps that have landed, noted. */
  function Noted(d: Displays, headless: seq<string>): Displays {
    d.(creating := if d.creating.Some? && HasNew(d.creating.value, headless) then None else d.creating,
       unplugging := if d.unplugging.Some? && d.unplugging.value !in headless then None else d.unplugging)
  }

  function NextStep(d: Displays, headless: seq<string>, v: View): Step {
    var noted := Noted(d, headless);
    if noted.wanted.None? || !noted.Idle() then Settled
    else StepTowards(noted.wanted.value, headless, v.shared, v.preferred)
  }

  /** What is asked of sway, and the account of it. A request sway does not take ends the
      asking. */
  function Asked(d: Displays, sway: bool, headless: seq<string>, v: View): (Displays, Step) {
    var noted := Noted(d, headless);
    var step := NextStep(d, headless, v);
    if !sway || step.Settled? then (noted, Settled)
    else if !v.accepted then (noted.(wanted := None), Settled)
    else if step.Create? then (noted.(creating := Some(headless)), Create)
    else (noted.(unplugging := Some(step.name)), step)
  }

  class VirtualDisplays {
    var wanted: Option<nat>
    var creating: Option<seq<string>>
    var unplugging: Option<string>

    function Model(): Displays
      reads this
    {
      Displays(wanted, creating, unplugging)
    }

    constructor ()
      ensures Model() == Displays(None, None, None)
    {
      wanted, creating, unplugging := None, None, None;
    }

    /** Notes what there is, and says what is to be done. */
    method Next(headless: seq<string>, v: View) returns (step: Step)
      modifies this
      ensures Model() == Noted(old(Model()), headless)
      ensures step == NextStep(old(Model()), headless, v)
    {
      if creating.Some? && HasNew(creating.value, headless) {
        creating := None;
      }
      if unplugging.Some? && unplugging.value !in headless {
        unplugging := None;
      }
      if wanted.None? || creating.Some? || unplugging.Some? {
        return Settled;
      }
      step := StepTowards(wanted.value, headless, v.shared, v.preferred);
    }

    method Creating(headless: seq<string>)
      modifies this
      ensures Model() == old(Model()).(creating := Some(headless))
    {
      creating := Some(headless);
    }

    method Unplugging(name: string)
      modifies this
      ensures Model() == old(Model()).(unplugging := Some(name))
    {
      unplugging := Some(name);
    }

    /** Takes the one step there is, and says what was asked of sway. */
    method Reconcile(sway: bool, headless: seq<string>, v: View) returns (sent: Step)
      modifies this
      ensures (Model(), sent) == Asked(old(Model()), sway, headless, v)
    {
      hide Noted, StepTowards;
      var step := Next(headless, v);
      if !sway || step.Settled? {
        return Settled;
      }
      if !v.accepted {
        wanted := None;
        return Settled;
      }
      match step {
        case Create => Creating(headless);
        case Unplug(name) => Unplugging(name);
      }
      sent := step;
    }

    /** The client on the desktop asks for so many. */
    method Want(sway: bool, count: nat, headless: seq<string>, v: View) returns (sent: Step)
      modifies this
      ensures (Model(), sent) == if MayWant(sway, count)
                                 then Asked(old(Model()).(wanted := Some(count)), sway, headless, v)
                                 else (old(Model()), Settled)
    {
      if !MayWant(sway, count) {
        return Settled;
      }
      wanted := Some(count);
      sent := Reconcile(sway, headless, v);
    }
  }

  predicate MayWant(sway: bool, count: nat) {
    sway && 1 <= count <= MOST
  }
}

/** Every run of a client's wishes, of sway carrying out what it was asked, and of outputs
    that others make and take away.
 */
module VirtualDisplayRuns {
  import opened Options
  import opened VirtualDisplayCounts

  /** `making` are the creations asked of sway and not yet carried out, `taking` the unplugs
      of outputs still there; `seen` are the names there have been, and `others` counts the
      outputs that appeared without having been asked for. */
  datatype System = System(
    d: Displays,
    sway: bool,
    headless: seq<string>,
    making: nat,
    taking: multiset<string>,
    seen: set<string>,
    others: nat)
  {
    function InFlight(): nat { making + |taking| }
  }

  datatype Event =
    | Wants(count: nat, v: View)
    | ClientGone
    | Made(name: string, v: View)
    | Unplugged(name: string, v: View)
    | OtherAppears(name: string, v: View)
    | OtherGoes(name: string, v: View)
    | OutputSays(v: View)

  /** wlroots counts up: a name is new when its output appears. */
  predicate Enabled(s: System, e: Event) {
    match e
    case Made(name, _) => s.making > 0 && name !in s.seen
    case Unplugged(name, _) => name in s.taking
    case OtherAppears(name, _) => name !in s.seen
    case OtherGoes(name, _) => name in s.headless
    case _ => true
  }

  function Without(names: seq<string>, name: string): seq<string> {
    if names == [] then []
    else
      var last := names[|names| - 1];
      Without(names[..|names| - 1], name) + (if last == name then [] else [last])
  }

  function Appeared(s: System, name: string): System {
    s.(headless := s.headless + [name], seen := s.seen + {name})
  }

  function Gone(s: System, name: string): System {
    s.(headless := Without(s.headless, name), taking := s.taking[name := 0])
  }

  function Reconciled(s: System, v: View): System {
    var (d, sent) := Asked(s.d, s.sway, s.headless, v);
    var t := s.(d := d);
    match sent
    case Settled => t
    case Create => t.(making := s.making + 1)
    case Unplug(name) => t.(taking := s.taking + multiset{name})
  }

  function Next(s: System, e: Event): System
    requires Enabled(s, e)
  {
    match e
    case Wants(count, v) =>
      if MayWant(s.sway, count) then Reconciled(s.(d := s.d.(wanted := Some(count))), v) else s
    case ClientGone => s.(d := s.d.(wanted := None))
    case Made(name, v) => Reconciled(Appeared(s.(making := s.making - 1), name), v)
    case Unplugged(name, v) => Reconciled(Gone(s, name), v)
    case OtherAppears(name, v) => Reconciled(Appeared(s.(others := s.others + 1), name), v)
    case OtherGoes(name, v) => Reconciled(Gone(s, name), v)
    case OutputSays(v) => Reconciled(s, v)
  }

  predicate CanRun(s: System, events: seq<Event>)
    decreases |events|
  {
    events == [] || (Enabled(s, events[0]) && CanRun(Next(s, events[0]), events[1..]))
  }

  function Run(s: System, events: seq<Event>): System
    requires CanRun(s, events)
    decreases |events|
  {
    if events == [] then s else Run(Next(s, events[0]), events[1..])
  }

  function NewSystem(sway: bool, headless: seq<string>): System {
    System(Displays(None, None, None), sway, headless, 0, multiset{}, set name | name in headless, 0)
  }

  // ----- names

  lemma {:induction false} WithoutNames(names: seq<string>, name: string)
    requires Distinct(names)
    ensures Distinct(Without(names, name))
    ensures forall n :: n in Without(names, name) <==> n in names && n != name
    ensures |Without(names, name)| == if name in names then |names| - 1 else |names|
  {
    if names != [] {
      var front, last := names[..|names| - 1], names[|names| - 1];
      WithoutNames(front, name);
      assert names == front + [last];
      assert last !in front;
    }
  }

  // ----- what every step keeps

  predicate NamesKnown(s: System) {
    && Distinct(s.headless)
    && (forall name :: name in s.headless ==> name in s.seen)
    && (s.d.creating.Some? ==> forall name :: name in s.d.creating.value ==> name in s.seen)
  }

  /** The account agrees with what is in flight, as far as others leave it alone. */
  predicate Account(s: System) {
    && !(s.d.creating.Some? && s.d.unplugging.Some?)
    && s.taking == (if s.d.unplugging.Some? then multiset{s.d.unplugging.value} else multiset{})
    && s.making <= s.others + (if s.d.creating.Some? then 1 else 0)
    && (s.d.creating.Some? ==> s.making >= 1)
    && (!s.d.Idle() ==> s.sway)
    && (s.d.wanted.Some? ==> MayWant(s.sway, s.d.wanted.value))
  }

  /** Nothing is left undone: with no step in flight there are as many as wanted. */
  predicate NothingUndone(s: System) {
    && (s.d.unplugging.Some? ==> s.d.unplugging.value in s.headless)
    && (s.d.creating.Some? ==> !HasNew(s.d.creating.value, s.headless))
    && (s.d.wanted.Some? && s.d.Idle() ==> |s.headless| == s.d.wanted.value)
  }

  predicate Inv(s: System) {
    NamesKnown(s) && Account(s) && NothingUndone(s)
  }

  /** The account agrees once what has landed is noted. */
  predicate Pending(s: System) {
    && NamesKnown(s)
    && Account(s.(d := Noted(s.d, s.headless)))
  }

  lemma ReconciledInv(s: System, v: View)
    requires Pending(s)
    ensures Inv(Reconciled(s, v))
    ensures Reconciled(s, v).(d := s.d, making := s.making, taking := s.taking) == s
  {
    var noted := Noted(s.d, s.headless);
    var step := NextStep(s.d, s.headless, v);
    if noted.wanted.Some? && noted.Idle() {
      StepMeans(noted.wanted.value, s.headless, v.shared, v.preferred);
      if |s.headless| > noted.wanted.value {
        SomethingCanGo(noted.wanted.value, s.headless, v.shared, v.preferred);
      }
    }
    hide StepTowards, Number;
  }

  lemma MadePending(s: System, name: string)
    requires Inv(s) && s.making > 0 && name !in s.seen
    ensures Pending(Appeared(s.(making := s.making - 1), name))
  {
    assert (s.headless + [name])[|s.headless|] == name;
    hide MayWant;
  }

  lemma OtherPending(s: System, name: string)
    requires Inv(s) && name !in s.seen
    ensures Pending(Appeared(s.(others := s.others + 1), name))
  {
    assert (s.headless + [name])[|s.headless|] == name;
    hide MayWant;
  }

  lemma GonePending(s: System, name: string)
    requires Inv(s)
    ensures Pending(Gone(s, name))
  {
    WithoutNames(s.headless, name);
    var t := Gone(s, name);
    assert t.taking == if s.d.unplugging.Some? && s.d.unplugging.value != name then s.taking else multiset{};
    if s.d.creating.Some? {
      assert forall i :: 0 <= i < |t.headless| ==> t.headless[i] in t.headless && t.headless[i] in s.headless;
      assert !HasNew(s.d.creating.value, t.headless);
    }
    hide MayWant, Without, Distinct;
  }

  lemma NextInv(s: System, e: Event)
    requires Inv(s) && Enabled(s, e)
    ensures Inv(Next(s, e))
  {
    hide Reconciled, Gone, Appeared;
    match e {
      case Wants(count, v) =>
        if MayWant(s.sway, count) {
          ReconciledInv(s.(d := s.d.(wanted := Some(count))), v);
        }
      case ClientGone =>
      case Made(name, v) =>
        MadePending(s, name);
        ReconciledInv(Appeared(s.(making := s.making - 1), name), v);
      case Unplugged(name, v) =>
        GonePending(s, name);
        ReconciledInv(Gone(s, name), v);
      case OtherAppears(name, v) =>
        OtherPending(s, name);
        ReconciledInv(Appeared(s.(others := s.others + 1), name), v);
      case OtherGoes(name, v) =>
        GonePending(s, name);
        ReconciledInv(Gone(s, name), v);
      case OutputSays(v) => ReconciledInv(s, v);
    }
  }

  // ----- runs

  lemma {:induction false} RunInv(s: System, events: seq<Event>)
    requires Inv(s) && CanRun(s, events)
    ensures Inv(Run(s, events))
    decreases |events|
  {
    hide Inv, Next, Enabled;
    if events != [] {
      NextInv(s, events[0]);
      RunInv(Next(s, events[0]), events[1..]);
    }
  }

  /** In every run the account holds one step at most; what is in flight at once is one, and
      one more for each output that appeared without having been asked for; and where a
      client wants displays and the account holds no step, there are as many as it wants. */
  lemma OneStepAtATime(sway: bool, headless: seq<string>, events: seq<Event>)
    requires Distinct(headless) && CanRun(NewSystem(sway, headless), events)
    ensures var s := Run(NewSystem(sway, headless), events);
            && !(s.d.creating.Some? && s.d.unplugging.Some?)
            && s.InFlight() <= 1 + s.others
            && |s.taking| <= 1
            && (s.d.wanted.Some? && s.d.Idle() ==> |s.headless| == s.d.wanted.value)
            && (s.d.wanted.Some? && s.InFlight() == 0 ==> |s.headless| == s.d.wanted.value)
  {
    RunInv(NewSystem(sway, headless), events);
    hide Run, MayWant;
  }

  /** The account of the creation in flight is true. */
  predicate Truthful(s: System) {
    s.making == (if s.d.creating.Some? then 1 else 0)
  }

  /** Another's output appears while a creation is in flight. */
  predicate Intrudes(s: System, e: Event) {
    e.OtherAppears? && s.d.creating.Some?
  }

  lemma TruthfulIsOne(s: System)
    requires Inv(s) && Truthful(s)
    ensures s.InFlight() <= 1
  {}

  lemma ReconciledTruthful(s: System, v: View)
    requires Pending(s) && s.making == (if Noted(s.d, s.headless).creating.Some? then 1 else 0)
    ensures Truthful(Reconciled(s, v))
  {
    hide StepTowards, Account, NamesKnown, Noted;
  }

  /** The account stays true while nobody intrudes. */
  lemma NextTruthful(s: System, e: Event)
    requires Inv(s) && Enabled(s, e) && Truthful(s) && !Intrudes(s, e)
    ensures Truthful(Next(s, e))
  {
    hide Reconciled, Gone, Appeared;
    match e {
      case Wants(count, v) =>
        if MayWant(s.sway, count) {
          ReconciledTruthful(s.(d := s.d.(wanted := Some(count))), v);
        }
      case ClientGone =>
      case Made(name, v) =>
        MadePending(s, name);
        AppearedIsNew(s.(making := s.making - 1), name);
        ReconciledTruthful(Appeared(s.(making := s.making - 1), name), v);
      case Unplugged(name, v) =>
        GonePending(s, name);
        GoneIsNoted(s, name);
        ReconciledTruthful(Gone(s, name), v);
      case OtherAppears(name, v) =>
        OtherPending(s, name);
        AppearedIsNew(s.(others := s.others + 1), name);
        ReconciledTruthful(Appeared(s.(others := s.others + 1), name), v);
      case OtherGoes(name, v) =>
        GonePending(s, name);
        GoneIsNoted(s, name);
        ReconciledTruthful(Gone(s, name), v);
      case OutputSays(v) => ReconciledTruthful(s, v);
    }
  }

  lemma AppearedIsNew(s: System, name: string)
    requires NamesKnown(s) && name !in s.seen
    ensures var t := Appeared(s, name);
            Noted(t.d, t.headless).creating.None? && t.making == s.making && t.d == s.d
  {
    assert (s.headless + [name])[|s.headless|] == name;
  }

  lemma GoneIsNoted(s: System, name: string)
    requires Inv(s)
    ensures var t := Gone(s, name);
            Noted(t.d, t.headless).creating == s.d.creating && t.making == s.making && t.d == s.d
  {
    WithoutNames(s.headless, name);
    var t := Gone(s, name);
    assert forall i :: 0 <= i < |t.headless| ==> t.headless[i] in t.headless && t.headless[i] in s.headless;
    hide Without, Distinct;
  }

  /** Nobody intrudes in a run. */
  predicate NoneIntrudes(s: System, events: seq<Event>)
    requires CanRun(s, events)
    decreases |events|
  {
    events == [] || (!Intrudes(s, events[0]) && NoneIntrudes(Next(s, events[0]), events[1..]))
  }

  /** No output of another's appears at all. */
  predicate NoOthers(events: seq<Event>) {
    forall i :: 0 <= i < |events| ==> !events[i].OtherAppears?
  }

  lemma {:induction false} RunTruthful(s: System, events: seq<Event>)
    requires Inv(s) && CanRun(s, events) && Truthful(s) && NoOthers(events)
    ensures Run(s, events).InFlight() <= 1
    decreases |events|
  {
    hide Inv, Next, Enabled, Truthful;
    if events == [] {
      TruthfulIsOne(s);
    } else {
      NextTruthful(s, events[0]);
      NextInv(s, events[0]);
      RunTruthful(Next(s, events[0]), events[1..]);
    }
  }

  /** Whatever happens now but another's output appearing, one step is in flight at most. */
  ghost predicate OneFromHere(s: System) {
    forall later :: CanRun(s, later) && NoOthers(later) ==> Run(s, later).InFlight() <= 1
  }

  /** At every point of a run. */
  ghost predicate OneThroughout(s: System, events: seq<Event>)
    requires CanRun(s, events)
    decreases |events|
  {
    OneFromHere(s) && (events == [] || OneThroughout(Next(s, events[0]), events[1..]))
  }

  /** One that intrudes passes for the output asked for: a second step is asked for at once, or
      as soon as the client wants another count. */
  lemma IntruderPassesForOurs(s: System, e: Event)
    requires Inv(s) && Enabled(s, e) && Truthful(s) && Intrudes(s, e)
    ensures !OneFromHere(Next(s, e))
  {
    var (name, v, t) := (e.name, e.v, Next(s, e));
    var shown := Appeared(s.(others := s.others + 1), name);
    OtherPending(s, name);
    AppearedIsNew(s.(others := s.others + 1), name);
    ReconciledInv(shown, v);
    if t.InFlight() >= 2 {
      assert CanRun(t, []) && NoOthers([]) && Run(t, []) == t;
    } else {
      assert t.sway;
      IdleAgain(shown, v);
      var count := if |t.headless| == 1 then 2 else 1;
      var (w, asks) := (View(None, None, true), t.(d := t.d.(wanted := Some(count))));
      AskedForWhenIdle(asks, w);
      var later := [Wants(count, w)];
      assert later[1..] == [] && CanRun(Next(t, later[0]), []);
      assert Run(t, later) == Reconciled(asks, w);
      assert CanRun(t, later) && NoOthers(later);
    }
  }

  lemma IdleAgain(s: System, v: View)
    requires Pending(s) && Noted(s.d, s.headless).Idle() && s.making == 1 && s.taking == multiset{}
    requires Reconciled(s, v).InFlight() < 2
    ensures Reconciled(s, v).d.Idle() && Reconciled(s, v).InFlight() == 1
  {
    hide StepTowards, NamesKnown;
  }

  /** One step is in flight at a time, throughout a run and whatever may follow, if and only if
      no output of another's appears in it while a creation is in flight: while `creating` is
      set. */
  lemma {:induction false} OneThroughoutIffNoneIntrudes(s: System, events: seq<Event>)
    requires Inv(s) && Truthful(s) && CanRun(s, events)
    ensures OneThroughout(s, events) <==> NoneIntrudes(s, events)
    decreases |events|
  {
    hide Inv, Next, Enabled, Truthful, Intrudes, OneFromHere;
    OneIfTruthful(s);
    if events != [] {
      var t := Next(s, events[0]);
      NextInv(s, events[0]);
      if Intrudes(s, events[0]) {
        IntruderPassesForOurs(s, events[0]);
        assert !OneThroughout(t, events[1..]);
      } else {
        NextTruthful(s, events[0]);
        OneThroughoutIffNoneIntrudes(t, events[1..]);
      }
    }
  }

  lemma OneIfTruthful(s: System)
    requires Inv(s) && Truthful(s)
    ensures OneFromHere(s)
  {
    forall later | CanRun(s, later) && NoOthers(later) ensures Run(s, later).InFlight() <= 1 {
      RunTruthful(s, later);
    }
  }

  /** That, from the start. */
  lemma OneStepInFlight(sway: bool, headless: seq<string>, events: seq<Event>)
    requires Distinct(headless) && CanRun(NewSystem(sway, headless), events)
    ensures OneThroughout(NewSystem(sway, headless), events) <==> NoneIntrudes(NewSystem(sway, headless), events)
  {
    OneThroughoutIffNoneIntrudes(NewSystem(sway, headless), events);
  }

  /** A step is asked for exactly when the account holds none and the count is not what is
      wanted, whatever is in flight in truth. */
  lemma AskedForWhenIdle(s: System, v: View)
    requires Pending(s) && s.d.wanted.Some? && s.sway && v.accepted
    ensures var idle := Noted(s.d, s.headless).Idle() && |s.headless| != s.d.wanted.value;
            Reconciled(s, v).InFlight() == if idle then s.InFlight() + 1 else s.InFlight()
  {
    var wanted := s.d.wanted.value;
    StepMeans(wanted, s.headless, v.shared, v.preferred);
    if |s.headless| > wanted {
      SomethingCanGo(wanted, s.headless, v.shared, v.preferred);
    }
    hide StepTowards, Distinct;
  }

  function OneOutput(): System {
    NewSystem(true, ["A-1"])
  }

  /** One is asked for, and then another's appears and passes for it. */
  lemma PassesForOurs(v: View)
    requires v == View(Some("A-1"), None, true)
    ensures var a := Next(OneOutput(), Wants(2, v));
            && Enabled(a, OtherAppears("A-2", v))
            && var b := Next(a, OtherAppears("A-2", v));
               && b.d == Displays(Some(2), None, None) && b.headless == ["A-1", "A-2"]
               && b.making == 1 && b.others == 1 && b.sway && b.taking == multiset{}
  {
    var a := Next(OneOutput(), Wants(2, v));
    assert a.d == Displays(Some(2), Some(["A-1"]), None) && a.making == 1;
    assert "A-1"[2] != "A-2"[2];
    assert ["A-1", "A-2"][1] !in ["A-1"];
    assert HasNew(["A-1"], ["A-1", "A-2"]);
    var b := Next(a, OtherAppears("A-2", v));
    assert Appeared(a.(others := 1), "A-2").headless == ["A-1", "A-2"];
    assert b.making == 1 && b.d == Displays(Some(2), None, None);
    assert b == Reconciled(Appeared(a.(others := 1), "A-2"), v);
    assert a.taking == multiset{};
  }

  /** Another's output appearing counts as the one asked for: with that output gone again, a
      second is asked for while the first is still to come. */
  lemma AnothersOutputPassesForOurs()
    ensures var v := View(Some("A-1"), None, true);
            var events := [Wants(2, v), OtherAppears("A-2", v), OtherGoes("A-2", v)];
            CanRun(OneOutput(), events) && Run(OneOutput(), events).others == 1 && Run(OneOutput(), events).making == 2
  {
    var v := View(Some("A-1"), None, true);
    PassesForOurs(v);
    var a := Next(OneOutput(), Wants(2, v));
    var b := Next(a, OtherAppears("A-2", v));
    assert OtherAppears("A-2", v).v == v;
    hide OneOutput;
    GoesAgain(b, v);
    assert Enabled(b, OtherGoes("A-2", v)) by { assert ["A-1", "A-2"][1] == "A-2"; }
    hide Next;
    RunThree(OneOutput(), Wants(2, v), OtherAppears("A-2", v), OtherGoes("A-2", v));
  }

  lemma GoesAgain(b: System, v: View)
    requires b.d == Displays(Some(2), None, None) && b.headless == ["A-1", "A-2"] && v.accepted && b.sway
    ensures Reconciled(Gone(b, "A-2"), v).making == b.making + 1
    ensures Reconciled(Gone(b, "A-2"), v).others == b.others
  {
    assert "A-1"[2] != "A-2"[2];
    assert b.headless[..1] == ["A-1"] && ["A-1"][..0] == [];
    assert Without(["A-1"], "A-2") == ["A-1"];
    assert Gone(b, "A-2").headless == ["A-1"];
  }

  lemma RunThree(s: System, a: Event, b: Event, c: Event)
    requires Enabled(s, a) && Enabled(Next(s, a), b) && Enabled(Next(Next(s, a), b), c)
    ensures CanRun(s, [a, b, c]) && Run(s, [a, b, c]) == Next(Next(Next(s, a), b), c)
  {
    hide Enabled, Next;
    assert [a, b, c][1..] == [b, c] && [b, c][1..] == [c] && [c][1..] == [];
    assert CanRun(Next(Next(s, a), b), [c]) && Run(Next(Next(s, a), b), [c]) == Next(Next(Next(s, a), b), c);
    assert CanRun(Next(s, a), [b, c]) && Run(Next(s, a), [b, c]) == Run(Next(Next(s, a), b), [c]);
  }

  // ----- the output the desktop is on

  /** The desktop stays on `name`, and nobody else takes that output away. */
  predicate StaysOn(e: Event, name: string) {
    match e
    case Wants(_, v) => v.shared == Some(name)
    case ClientGone => true
    case Made(_, v) => v.shared == Some(name)
    case Unplugged(_, v) => v.shared == Some(name)
    case OtherAppears(_, v) => v.shared == Some(name)
    case OtherGoes(other, v) => v.shared == Some(name) && other != name
    case OutputSays(v) => v.shared == Some(name)
  }

  lemma ReconciledSpares(s: System, v: View, name: string)
    requires v.shared == Some(name)
    ensures Reconciled(s, v).headless == s.headless
    ensures name !in s.taking ==> name !in Reconciled(s, v).taking
  {
    var noted := Noted(s.d, s.headless);
    if noted.wanted.Some? {
      StepMeans(noted.wanted.value, s.headless, v.shared, v.preferred);
    }
    hide StepTowards, Noted;
  }

  lemma NextSpares(s: System, e: Event, name: string)
    requires Inv(s) && Enabled(s, e) && StaysOn(e, name)
    requires name in s.headless && name !in s.taking
    ensures name in Next(s, e).headless && name !in Next(s, e).taking
  {
    hide Reconciled;
    match e {
      case Wants(count, v) =>
        ReconciledSpares(s.(d := s.d.(wanted := Some(count))), v, name);
      case ClientGone =>
      case Made(other, v) =>
        ReconciledSpares(Appeared(s.(making := s.making - 1), other), v, name);
      case Unplugged(other, v) =>
        WithoutNames(s.headless, other);
        ReconciledSpares(Gone(s, other), v, name);
      case OtherAppears(other, v) =>
        ReconciledSpares(Appeared(s.(others := s.others + 1), other), v, name);
      case OtherGoes(other, v) =>
        WithoutNames(s.headless, other);
        ReconciledSpares(Gone(s, other), v, name);
      case OutputSays(v) =>
        ReconciledSpares(s, v, name);
    }
  }

  /** An output the desktop stays on is never asked to go, and is there throughout. */
  lemma {:induction false} SharedStays(s: System, events: seq<Event>, name: string)
    requires Inv(s) && CanRun(s, events)
    requires forall i :: 0 <= i < |events| ==> StaysOn(events[i], name)
    requires name in s.headless && name !in s.taking
    ensures name in Run(s, events).headless && name !in Run(s, events).taking
    decreases |events|
  {
    hide Inv, Next, Enabled, StaysOn;
    if events != [] {
      assert StaysOn(events[0], name);
      NextSpares(s, events[0], name);
      NextInv(s, events[0]);
      SharedStays(Next(s, events[0]), events[1..], name);
    }
  }

  /** The desktop may stay on an output if and only if its unplug is not the step in flight:
      then it stays through whatever else happens, and otherwise it can go. */
  lemma StaysIfAndOnlyIfNotGoing(s: System, name: string)
    requires Inv(s) && name in s.headless
    ensures (forall events :: CanRun(s, events) && (forall i :: 0 <= i < |events| ==> StaysOn(events[i], name)) ==>
               name in Run(s, events).headless)
            <==> s.d.unplugging != Some(name)
  {
    if s.d.unplugging == Some(name) {
      var v := View(Some(name), None, true);
      var events := [Unplugged(name, v)];
      assert events[1..] == [] && CanRun(Next(s, events[0]), []);
      WithoutNames(s.headless, name);
      ReconciledSpares(Gone(s, name), v, name);
      assert CanRun(s, events) && Run(s, events) == Reconciled(Gone(s, name), v);
      assert StaysOn(events[0], name);
    } else {
      forall events | CanRun(s, events) && (forall i :: 0 <= i < |events| ==> StaysOn(events[i], name))
        ensures name in Run(s, events).headless
      {
        SharedStays(s, events, name);
      }
    }
  }

  function TwoOutputs(): System {
    NewSystem(true, ["A-1", "A-2"])
  }

  lemma SecondIsAskedToGo(v: View)
    requires v == View(Some("A-1"), None, true)
    ensures Next(TwoOutputs(), Wants(1, v))
         == TwoOutputs().(d := Displays(Some(1), None, Some("A-2")), taking := multiset{"A-2"})
  {
    var s := TwoOutputs();
    assert "A-1"[2] != "A-2"[2];
    assert s.headless[1] == "A-2" && Some("A-2") != v.shared;
    StepMeans(1, s.headless, v.shared, v.preferred);
    assert StepTowards(1, s.headless, v.shared, v.preferred) == Unplug("A-2");
    hide StepTowards;
  }

  /** One the desktop moves to once its unplug has been asked for does go: the account of the
      step in flight does not bear on what the client may choose. */
  lemma ChosenOutputCanGo()
    ensures var v := View(Some("A-1"), None, true);
            var w := View(Some("A-2"), None, true);
            var events := [Wants(1, v), OutputSays(w), Unplugged("A-2", w)];
            CanRun(TwoOutputs(), events) && "A-2" !in Run(TwoOutputs(), events).headless
  {
    var v := View(Some("A-1"), None, true);
    var w := View(Some("A-2"), None, true);
    SecondIsAskedToGo(v);
    var a := Next(TwoOutputs(), Wants(1, v));
    hide StepTowards;
    assert "A-1"[2] != "A-2"[2];
    assert a.headless[1] == "A-2" && Distinct(a.headless);
    assert OutputSays(w).v == w && Reconciled(a, w) == a;
    WithoutNames(a.headless, "A-2");
    ReconciledSpares(Gone(a, "A-2"), w, "A-2");
    hide Reconciled;
    RunThree(TwoOutputs(), Wants(1, v), OutputSays(w), Unplugged("A-2", w));
  }

  // ----- reaching what is wanted

  /** The step in flight carried out, a made output being called `name`. */
  function CarriedOut(s: System, name: string, v: View): System
    requires s.InFlight() > 0 && Inv(s) && name !in s.seen
  {
    if s.making > 0 then Next(s, Made(name, v))
    else
      assert |s.taking| > 0;
      Next(s, Unplugged(s.d.unplugging.value, v))
  }

  /** How far the count is from what is wanted. */
  function Distance(s: System): nat {
    if s.d.wanted.None? then 0
    else if |s.headless| < s.d.wanted.value then s.d.wanted.value - |s.headless|
    else |s.headless| - s.d.wanted.value
  }

  /** Nothing is in flight but the step that brings the count nearer. */
  predicate OnTheWay(s: System) {
    && Inv(s) && s.d.wanted.Some?
    && s.InFlight() == (if Distance(s) == 0 then 0 else 1)
    && s.making == (if |s.headless| < s.d.wanted.value then 1 else 0)
  }

  /** With nothing in flight, looking at what there is puts the daemon on its way. */
  lemma ReconciledIsOnTheWay(s: System, v: View)
    requires Pending(s) && s.InFlight() == 0 && s.d.wanted.Some? && v.accepted
    requires Noted(s.d, s.headless).Idle()
    ensures OnTheWay(Reconciled(s, v))
    ensures Reconciled(s, v).headless == s.headless && Reconciled(s, v).d.wanted == s.d.wanted
    ensures Reconciled(s, v).seen == s.seen
  {
    ReconciledInv(s, v);
    var wanted := s.d.wanted.value;
    StepMeans(wanted, s.headless, v.shared, v.preferred);
    if |s.headless| > wanted {
      SomethingCanGo(wanted, s.headless, v.shared, v.preferred);
    }
    hide StepTowards, Inv;
  }

  /** What is carried out brings the count one nearer, with no more than one new step. */
  lemma CarriedOutIsOnTheWay(s: System, name: string, v: View)
    requires OnTheWay(s) && Distance(s) > 0 && name !in s.seen && v.accepted
    ensures var t := CarriedOut(s, name, v);
            && OnTheWay(t) && Distance(t) == Distance(s) - 1
            && t.d.wanted == s.d.wanted
            && (|s.headless| < s.d.wanted.value ==> |t.headless| == |s.headless| + 1)
            && (|s.headless| > s.d.wanted.value ==> |t.headless| == |s.headless| - 1)
            && t.seen <= s.seen + {name}
  {
    hide Reconciled;
    if s.making > 0 {
      MadePending(s, name);
      var t := Appeared(s.(making := s.making - 1), name);
      assert t.headless[|s.headless|] == name;
      ReconciledIsOnTheWay(t, v);
    } else {
      var gone := s.d.unplugging.value;
      GonePending(s, gone);
      WithoutNames(s.headless, gone);
      assert Gone(s, gone).taking == multiset{};
      ReconciledIsOnTheWay(Gone(s, gone), v);
    }
  }

  datatype Landing = Landing(name: string, v: View)

  /** Names not yet seen, all different, and sway takes what it is asked. */
  predicate Fresh(s: System, landings: seq<Landing>) {
    forall i :: 0 <= i < |landings| ==>
      && landings[i].v.accepted && landings[i].name !in s.seen
      && forall j :: 0 <= j < i ==> landings[j].name != landings[i].name
  }

  /** One step after another carried out, each once the one before it has been. */
  function Followed(s: System, landings: seq<Landing>): System
    requires OnTheWay(s) && Fresh(s, landings) && |landings| <= Distance(s)
    decreases |landings|
  {
    if landings == [] then s
    else
      CarriedOutIsOnTheWay(s, landings[0].name, landings[0].v);
      Followed(CarriedOut(s, landings[0].name, landings[0].v), landings[1..])
  }

  /** With each step carried out and nothing else changing, each brings the count one nearer:
      after as many as it was away, and no fewer, it is what is wanted and nothing more is
      asked. */
  lemma {:induction false} StepsAreExact(s: System, landings: seq<Landing>)
    requires OnTheWay(s) && Fresh(s, landings) && |landings| <= Distance(s)
    ensures var t := Followed(s, landings);
            && Inv(t) && t.d.wanted == s.d.wanted
            && Distance(t) == Distance(s) - |landings|
            && t.InFlight() == (if |landings| == Distance(s) then 0 else 1)
            && |t.headless| == (if |s.headless| < s.d.wanted.value then |s.headless| + |landings|
                                else |s.headless| - |landings|)
            && (|landings| == Distance(s) <==> |t.headless| == s.d.wanted.value)
    decreases |landings|
  {
    hide CarriedOut, Inv;
    if landings != [] {
      CarriedOutIsOnTheWay(s, landings[0].name, landings[0].v);
      StepsAreExact(CarriedOut(s, landings[0].name, landings[0].v), landings[1..]);
    }
  }

  /** Asking for a count while nothing is in flight puts the daemon on its way to it. */
  lemma AskingStarts(s: System, count: nat, v: View)
    requires Inv(s) && MayWant(s.sway, count) && s.InFlight() == 0 && v.accepted
    ensures OnTheWay(Next(s, Wants(count, v)))
    ensures Next(s, Wants(count, v)).headless == s.headless
    ensures Next(s, Wants(count, v)).d.wanted == Some(count)
  {
    ReconciledIsOnTheWay(s.(d := s.d.(wanted := Some(count))), v);
    hide Reconciled;
  }

  lemma WishIsOnItsWay(s: System, name: string, v: View)
    requires Inv(s) && s.d.wanted.Some? && s.others == 0 && name !in s.seen && v.accepted
    ensures if s.InFlight() == 0 then OnTheWay(s) && Distance(s) == 0
            else OnTheWay(CarriedOut(s, name, v)) && CarriedOut(s, name, v).d.wanted == s.d.wanted
  {
    hide Reconciled;
    if s.making > 0 {
      MadePending(s, name);
      var t := Appeared(s.(making := s.making - 1), name);
      assert t.headless[|s.headless|] == name;
      ReconciledIsOnTheWay(t, v);
    } else if |s.taking| > 0 {
      var gone := s.d.unplugging.value;
      GonePending(s, gone);
      WithoutNames(s.headless, gone);
      assert Gone(s, gone).taking == multiset{};
      ReconciledIsOnTheWay(Gone(s, gone), v);
    }
  }

  /** In every run in which outputs appear only as asked for, a client's wish is met, or on its
      way once the one step in flight has been carried out. */
  lemma EveryWishIsOnItsWay(sway: bool, headless: seq<string>, events: seq<Event>, name: string, v: View)
    requires Distinct(headless) && CanRun(NewSystem(sway, headless), events)
    requires var s := Run(NewSystem(sway, headless), events);
             s.d.wanted.Some? && s.others == 0 && name !in s.seen && v.accepted
    ensures var s := Run(NewSystem(sway, headless), events);
            && Inv(s)
            && if s.InFlight() == 0 then OnTheWay(s) && Distance(s) == 0
               else OnTheWay(CarriedOut(s, name, v)) && CarriedOut(s, name, v).d.wanted == s.d.wanted
  {
    RunInv(NewSystem(sway, headless), events);
    hide Run, CanRun, OnTheWay, CarriedOut, Distance;
    WishIsOnItsWay(Run(NewSystem(sway, headless), events), name, v);
  }

  // ----- what a wish does

  /** One display or two may be asked for, and of sway alone: the wish then stands, unless a
      request had to be made for it and was refused; and a request is made exactly where no
      step is in flight and there are more or fewer than that. */
  lemma WantInNumbers(s: System, count: nat, v: View)
    requires Inv(s)
    ensures var t := Next(s, Wants(count, v));
            var usable := s.sway && (count == 1 || count == 2);
            var due := s.d.Idle() && |s.headless| != count;
            && (!usable ==> t == s)
            && (usable ==> t.d.wanted == if due && !v.accepted then None else Some(count))
            && (t.making == s.making + 1 <==> usable && due && v.accepted && |s.headless| < count)
            && (t.InFlight() == s.InFlight() + 1 <==> usable && due && v.accepted)
            && t.headless == s.headless
  {
    if MayWant(s.sway, count) {
      StepMeans(count, s.headless, v.shared, v.preferred);
      if |s.headless| > count {
        SomethingCanGo(count, s.headless, v.shared, v.preferred);
      }
    }
    hide StepTowards, Distinct, HasNew;
  }

  /** Nobody asks: the client that did has left, and none has asked since. */
  predicate NobodyAsks(events: seq<Event>) {
    forall i :: 0 <= i < |events| ==> !events[i].Wants?
  }

  lemma WithoutAWish(s: System, v: View)
    requires s.d.wanted.None?
    ensures var t := Reconciled(s, v); t.d.wanted.None? && t.making == s.making && t.taking == s.taking
  {}

  /** Nothing is asked of sway for a client that has gone: what is in flight is carried out, and
      the outputs then stand. */
  lemma NothingForAClientGone(s: System, events: seq<Event>)
    requires CanRun(Next(s, ClientGone), events) && NobodyAsks(events)
    ensures var t := Run(Next(s, ClientGone), events);
            t.d.wanted.None? && t.making <= s.making && t.taking <= s.taking
  {
    NothingUnlessWanted(Next(s, ClientGone), events);
  }

  lemma {:induction false} NothingUnlessWanted(s: System, events: seq<Event>)
    requires CanRun(s, events) && NobodyAsks(events) && s.d.wanted.None?
    ensures var t := Run(s, events); t.d.wanted.None? && t.making <= s.making && t.taking <= s.taking
    decreases |events|
  {
    if events != [] {
      var t := Next(s, events[0]);
      NextUnlessWanted(s, events[0]);
      hide Next;
      assert NobodyAsks(events[1..]);
      NothingUnlessWanted(t, events[1..]);
    }
  }

  lemma NextUnlessWanted(s: System, e: Event)
    requires Enabled(s, e) && !e.Wants? && s.d.wanted.None?
    ensures var t := Next(s, e); t.d.wanted.None? && t.making <= s.making && t.taking <= s.taking
  {
    hide Reconciled, Without;
    match e {
      case ClientGone =>
      case Made(name, v) => WithoutAWish(Appeared(s.(making := s.making - 1), name), v);
      case Unplugged(name, v) => WithoutAWish(Gone(s, name), v);
      case OtherAppears(name, v) => WithoutAWish(Appeared(s.(others := s.others + 1), name), v);
      case OtherGoes(name, v) => WithoutAWish(Gone(s, name), v);
      case OutputSays(v) => WithoutAWish(s, v);
    }
  }
}
