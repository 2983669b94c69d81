/** Every run of clients and a compositor that may do anything (src/compositor.rs,
    src/outputs.rs, src/session.rs).
 */
module CompositorRuns {
  import opened Options
  import opened Compositors
  import DeskProofs
  import DeclarationProofs

  datatype Event =
    | Joins(client: ClientId)
    | JoinsBeside(client: ClientId)
    | Leaves(client: ClientId)
    | Resizes(client: ClientId, width: nat, height: nat)
    | Declares(client: ClientId, width: nat, height: nat, scale: real)
    | Selects(client: ClientId, id: nat)
    | Answers(config: nat, answer: Answer)
    | Syncs(id: nat)
    | HeadsChange(changed: seq<Option<Name>>)
    | OutputSays(output: Output)
    | OutputIsDone(output: Output)
    | OutputGoes(index: nat)
    | FrameComes(desk: Desk, width: nat, height: nat)

  /** A client joins once, while it is on no desk; a configuration is answered while it is
      there to be; the rest may happen at any time. */
  predicate Enabled(s: State, e: Event) {
    && TwoDesks(s)
    && match e
       case Joins(client) => client > 0 && DeskOf(s, client).None?
       case JoinsBeside(client) => client > 0 && DeskOf(s, client).None?
       case Answers(config, _) => config in s.configs
       case OutputGoes(index) => index < |s.outputs|
       case _ => true
  }

  function ClientResizes(s: State, client: ClientId, w: nat, h: nat): (r: State)
    requires TwoDesks(s)
    ensures TwoDesks(r)
  {
    var desk := DeskOf(s, client);
    if desk.None? then s else ResizeDesk(s, desk.value, client, w, h, false)
  }

  function Next(s: State, e: Event): (r: State)
    requires Enabled(s, e)
    ensures TwoDesks(r)
  {
    match e
    case Joins(client) => ClientJoined(s, client)
    case JoinsBeside(client) => JoinBeside(s, client)
    case Leaves(client) => ClientLeft(s, client)
    case Resizes(client, w, h) => ClientResizes(s, client, w, h)
    case Declares(client, w, h, scale) => ClientDeclares(s, client, w, h, scale)
    case Selects(client, id) => SelectOutput(s, client, id)
    case Answers(config, answer) => ConfigAnswered(s, config, answer)
    case Syncs(id) => SyncDone(s, id)
    case HeadsChange(changed) => ManagerDone(s, changed)
    case OutputSays(output) => s.(outputs := Replace(s.outputs, output))
    case OutputIsDone(output) => OutputDone(s, output)
    case OutputGoes(index) => OutputRemoved(s, index)
    case FrameComes(desk, w, h) => FrameTaken(s, desk, w, h)
  }

  ghost predicate Inv(s: State) {
    DeskProofs.Inv(s) && DeclarationProofs.Inv(s)
  }

  /** What an event makes of who is where. */
  predicate SeatsAfter(s: State, e: Event, t: State) {
    && TwoDesks(s) && TwoDesks(t)
    && if e.JoinsBeside? then DeskProofs.AskedBeside(s, e.client, t)
       else
         || DeskProofs.StaysOrEnds(s, t)
         || (DeskProofs.Ends(s, t) && e.Joins? && DeskProofs.First(t) == Some(e.client))
         || (DeskProofs.Ends(s, t) && e.Leaves? && DeskProofs.First(t).None? && DeskProofs.First(s) == Some(e.client))
  }

  // ----- desks, step by step

  lemma OutputsOnly(s: State, outputs: seq<Output>)
    requires Inv(s)
    ensures Inv(s.(outputs := outputs))
  {
    DeclarationProofs.OtherDesksCore(s, s.(outputs := outputs), {});
    hide DeclarationProofs.Core;
  }

  lemma DoneInv(s: State, o: Output)
    requires Inv(s)
    ensures Inv(OutputDone(s, o)) && DeskProofs.StaysOrEnds(s, OutputDone(s, o))
  {
    var t := s.(outputs := Replace(s.outputs, o));
    OutputsOnly(s, t.outputs);
    DeskProofs.AdoptKeeps(t);
    DeclarationProofs.AdoptInv(t);
    hide DeclarationProofs.Inv, DeskProofs.Inv, AdoptOutput, Replace;
  }

  lemma RemovedInv(s: State, i: nat)
    requires Inv(s) && i < |s.outputs|
    ensures Inv(OutputRemoved(s, i)) && DeskProofs.StaysOrEnds(s, OutputRemoved(s, i))
  {
    var name := s.outputs[i].name;
    var t := s.(outputs := s.outputs[..i] + s.outputs[i + 1..]);
    OutputsOnly(s, t.outputs);
    DeskProofs.GoneKeeps(t, FIRST);
    DeclarationProofs.GoneInv(t, FIRST);
    var u := if IsOn(s, FIRST, name) then OutputGone(t, FIRST) else t;
    DeskProofs.GoneKeeps(u, BESIDE);
    DeclarationProofs.GoneInv(u, BESIDE);
    hide DeclarationProofs.Inv, DeskProofs.Inv, OutputGone;
  }

  lemma FrameInv(s: State, desk: Desk, w: nat, h: nat)
    requires Inv(s)
    ensures Inv(FrameTaken(s, desk, w, h)) && DeskProofs.StaysOrEnds(s, FrameTaken(s, desk, w, h))
  {
    DeclarationProofs.OtherDesksCore(s, WithoutResize(s, desk), {});
    hide DeclarationProofs.Core;
    assert DeskProofs.OnlyRequests(s, FrameTaken(s, desk, w, h));
    DeskProofs.OnlyRequestsKeep(s, FrameTaken(s, desk, w, h));
  }

  lemma ResizesInv(s: State, client: ClientId, w: nat, h: nat)
    requires Inv(s)
    ensures Inv(ClientResizes(s, client, w, h)) && DeskProofs.StaysOrEnds(s, ClientResizes(s, client, w, h))
  {
    var desk := DeskOf(s, client);
    if desk.Some? {
      DeclarationProofs.ResizeInv(s, desk.value, client, w, h, false);
      ResizeRequests(s, desk.value, client, w, h);
      hide DeclarationProofs.Inv, DeskProofs.Inv, DeskProofs.OnlyRequests, ResizeDesk;
      DeskProofs.OnlyRequestsKeep(s, ResizeDesk(s, desk.value, client, w, h, false));
    }
  }

  lemma ResizeRequests(s: State, desk: Desk, client: ClientId, w: nat, h: nat)
    requires TwoDesks(s) && s.desks[desk].client == Some(client)
    ensures DeskProofs.OnlyRequests(s, ResizeDesk(s, desk, client, w, h, false))
  {
    hide SendConfig, CanConfigure;
  }

  lemma RequestsInv(s: State, e: Event)
    requires Inv(s) && Enabled(s, e) && (e.Declares? || e.Answers? || e.Syncs? || e.HeadsChange?)
    ensures Inv(Next(s, e)) && DeskProofs.StaysOrEnds(s, Next(s, e))
  {
    hide DeclarationProofs.Inv, DeskProofs.Inv, DeskProofs.OnlyRequests;
    hide ClientDeclares, ConfigAnswered, SyncDone, ManagerDone;
    match e {
      case Declares(client, w, h, scale) =>
        DeskProofs.DeclaresRequests(s, client, w, h, scale);
        DeclarationProofs.DeclaresInv(s, client, w, h, scale);
      case Answers(config, answer) =>
        DeskProofs.AnsweredRequests(s, config, answer);
        DeclarationProofs.AnsweredInv(s, config, answer);
      case Syncs(id) =>
        DeskProofs.SyncRequests(s, id);
        DeclarationProofs.SyncInv(s, id);
      case HeadsChange(changed) =>
        DeskProofs.ManagerRequests(s, changed);
        DeclarationProofs.ManagerInv(s, changed);
    }
    DeskProofs.OnlyRequestsKeep(s, Next(s, e));
  }

  lemma ClientsInv(s: State, e: Event)
    requires Inv(s) && Enabled(s, e) && (e.Joins? || e.JoinsBeside? || e.Leaves? || e.Selects?)
    ensures Inv(Next(s, e)) && SeatsAfter(s, e, Next(s, e))
  {
    hide DeclarationProofs.Inv, DeskProofs.Inv, DeskProofs.Ends, DeskProofs.StaysOrEnds, DeskProofs.AskedBeside;
    hide ClientJoined, JoinBeside, ClientLeft, SelectOutput;
    match e {
      case Joins(client) =>
        DeskProofs.JoinedKeeps(s, client);
        DeclarationProofs.JoinedInv(s, client);
      case JoinsBeside(client) =>
        DeskProofs.JoinBesideKeeps(s, client);
        DeclarationProofs.JoinBesideInv(s, client);
      case Leaves(client) =>
        DeskProofs.LeftKeeps(s, client);
        DeclarationProofs.LeftInv(s, client);
      case Selects(client, id) =>
        DeskProofs.SelectKeeps(s, client, id);
        DeclarationProofs.SelectInv(s, client, id);
    }
  }

  lemma NextInv(s: State, e: Event)
    requires Inv(s) && Enabled(s, e)
    ensures Inv(Next(s, e)) && SeatsAfter(s, e, Next(s, e))
  {
    hide Inv, ClientResizes, OutputDone, OutputRemoved, FrameTaken;
    hide DeskProofs.Ends, DeskProofs.StaysOrEnds, DeskProofs.AskedBeside;
    hide ClientJoined, JoinBeside, ClientLeft, SelectOutput;
    hide ClientDeclares, ConfigAnswered, SyncDone, ManagerDone;
    match e {
      case Resizes(client, w, h) => ResizesInv(s, client, w, h);
      case OutputSays(output) =>
        OutputsOnly(s, Replace(s.outputs, output));
        DeskProofs.Unmoved(s, s.(outputs := Replace(s.outputs, output)));
      case OutputIsDone(output) => DoneInv(s, output);
      case OutputGoes(index) => RemovedInv(s, index);
      case FrameComes(desk, w, h) => FrameInv(s, desk, w, h);
      case Joins(_) => ClientsInv(s, e);
      case JoinsBeside(_) => ClientsInv(s, e);
      case Leaves(_) => ClientsInv(s, e);
      case Selects(_, _) => ClientsInv(s, e);
      case _ => RequestsInv(s, e);
    }
  }

  lemma SeatsRise(s: State, e: Event, t: State)
    requires SeatsAfter(s, e, t)
    ensures t.seats.besideEnded >= s.seats.besideEnded
  {}

  // ----- runs

  predicate CanRun(s: State, events: seq<Event>)
    decreases |events|
  {
    events == [] || (Enabled(s, events[0]) && CanRun(Next(s, events[0]), events[1..]))
  }

  function Run(s: State, events: seq<Event>): State
    requires CanRun(s, events)
    decreases |events|
  {
    if events == [] then s else Run(Next(s, events[0]), events[1..])
  }

  lemma {:induction false} RunInv(s: State, events: seq<Event>)
    requires Inv(s) && CanRun(s, events)
    ensures Inv(Run(s, events)) && Run(s, events).seats.besideEnded >= s.seats.besideEnded
    decreases |events|
  {
    hide Inv, Next, Enabled;
    if events == [] {
    } else {
      NextInv(s, events[0]);
      SeatsRise(s, events[0], Next(s, events[0]));
      RunInv(Next(s, events[0]), events[1..]);
    }
  }

  lemma NewInv(outputs: seq<Output>, wanted: Option<Name>, manager: bool, selected: Option<Name>)
    ensures Inv(NewState(outputs, wanted, manager, selected))
  {}

  /** The desks in every reachable state: the seats mirror them; a display beside is there
      only with an older client on the desktop, and on another output; what is pending or
      waiting on a desk is its own client's; and what has ended beside never un-ends. */
  lemma EveryRunKeepsTheDesks(outputs: seq<Output>, wanted: Option<Name>, manager: bool, selected: Option<Name>,
                              before: seq<Event>, after: seq<Event>)
    requires CanRun(NewState(outputs, wanted, manager, selected), before)
    requires CanRun(Run(NewState(outputs, wanted, manager, selected), before), after)
    ensures var s := Run(NewState(outputs, wanted, manager, selected), before);
            var t := Run(s, after);
            && TwoDesks(t)
            && var (first, beside) := (t.desks[FIRST], t.desks[BESIDE]);
               && t.seats.holder == first.client.GetOr(0) && t.seats.beside == beside.client.GetOr(0)
               && (beside.client.Some? ==> first.client.Some? && first.client.value < beside.client.value)
               && (beside.client.Some? <==> beside.selected.Some?)
               && (beside.selected.Some? ==> first.selected != beside.selected)
               && DeskProofs.OwnRequests(first) && DeskProofs.OwnRequests(beside)
               && s.seats.besideEnded <= t.seats.besideEnded
  {
    NewInv(outputs, wanted, manager, selected);
    RunInv(NewState(outputs, wanted, manager, selected), before);
    RunInv(Run(NewState(outputs, wanted, manager, selected), before), after);
    hide DeclarationProofs.Inv, NewState;
  }

  lemma {:induction false} RunSum(s: State, a: seq<Event>, b: seq<Event>)
    requires CanRun(s, a + b)
    ensures CanRun(s, a) && CanRun(Run(s, a), b) && Run(s, a + b) == Run(Run(s, a), b)
    decreases |a|
  {
    hide Next, Enabled;
    if a == [] {
      assert a + b == b;
    } else {
      assert (a + b)[1..] == a[1..] + b;
      RunSum(Next(s, a[0]), a[1..], b);
    }
  }

  // ----- what the sessions are told

  /** Whether a session is told that its desk is no longer its own. */
  predicate Superseded(seats: Seats, client: ClientId, beside: bool) {
    if beside then seats.besideEnded >= client else seats.holder > client
  }

  /** A session whose desktop another takes is told so exactly when the other is the newer:
      one whose handshake finished late leaves the session it replaced waiting. */
  lemma TakenDesktopIsTold(s: State, previous: ClientId, client: ClientId)
    requires Inv(s) && Enabled(s, Joins(client)) && s.desks[FIRST].client == Some(previous)
    ensures ClientJoined(s, client).desks[FIRST].client == Some(client)
    ensures Superseded(ClientJoined(s, client).seats, previous, false) <==> previous < client
  {
    DeskProofs.JoinedKeeps(s, client);
    hide ClientJoined;
  }

  /** A connection seated beside keeps its seat exactly when nobody was there before it, or
      somebody older was: the tests look at what had ended before this join ends the one it
      takes the place of, so an older connection takes a newer one's place and is told at
      once that it has ended too. */
  lemma SeatedBesideIsLive(s: State, client: ClientId)
    requires Inv(s) && Enabled(s, JoinsBeside(client))
    requires JoinBeside(s, client).desks[BESIDE].client == Some(client)
    ensures !Superseded(JoinBeside(s, client).seats, client, true)
        <==> s.desks[BESIDE].client.None? || s.desks[BESIDE].client.value < client
  {
    DeskProofs.JoinBesideKeeps(s, client);
    hide JoinBeside, DeclarationProofs.Inv;
  }

  function TwoOutputs(): seq<Output> {
    [Output(1, Some(1), 100, 100, 1.0, true, true), Output(2, Some(2), 100, 100, 1.0, true, true)]
  }

  /** Clients 1, 3 and 2 join in that order, the last two beside: 2 takes the place of 3, and
      both sessions are told they have ended. */
  lemma OlderJoinEndsBoth()
    ensures var events := [Joins(1), JoinsBeside(3), JoinsBeside(2)];
            var s := NewState(TwoOutputs(), None, false, Some(1));
            && CanRun(s, events)
            && Run(s, events).desks[BESIDE].client == Some(2)
            && Superseded(Run(s, events).seats, 3, true) && Superseded(Run(s, events).seats, 2, true)
  {
    var s := NewState(TwoOutputs(), None, false, Some(1));
    var a := ClientJoined(s, 1);
    assert FirstEntry(TwoOutputs(), Some(1)) == Some(TwoOutputs()[1]);
    assert Selectable(TwoOutputs(), 2) == Some(TwoOutputs()[1]);
    var b := JoinBeside(a, 3);
    assert b.desks[BESIDE].client == Some(3) && b.outputs == TwoOutputs();
    var c := JoinBeside(b, 2);
    assert c.desks[BESIDE].client == Some(2) && c.seats.besideEnded == 3;
    RunThree(s, Joins(1), JoinsBeside(3), JoinsBeside(2));
  }

  lemma RunThree(s: State, a: Event, b: Event, c: Event)
    requires Enabled(s, a) && Enabled(Next(s, a), b) && Enabled(Next(Next(s, a), b), c)
    ensures CanRun(s, [a, b, c]) && Run(s, [a, b, c]) == Next(Next(Next(s, a), b), c)
  {
    hide Enabled, Next;
    assert [a, b, c][1..] == [b, c] && [b, c][1..] == [c] && [c][1..] == [];
    assert CanRun(Next(Next(s, a), b), [c]) && Run(Next(Next(s, a), b), [c]) == Next(Next(Next(s, a), b), c);
    assert CanRun(Next(s, a), [b, c]) && Run(Next(s, a), [b, c]) == Run(Next(Next(s, a), b), [c]);
  }
}
