/** What the sessions make of the seats whenever they look, over every run, and over those in
    which clients join in the order of their numbers (src/session.rs, src/compositor.rs).
 */
module DeskSessions {
  import opened Options
  import opened Compositors
  import opened CompositorRuns
  import DeskProofs
  import DeclarationProofs

  // ----- over every run

  /** Whenever a session that took the desktop looks, it is told that it lost it if and only if
      a newer client is on the desktop just then. */
  lemma ToldWhileANewerHolds(outputs: seq<Output>, wanted: Option<Name>, manager: bool, selected: Option<Name>,
                             events: seq<Event>, client: ClientId)
    requires CanRun(NewState(outputs, wanted, manager, selected), events)
    ensures var s := Run(NewState(outputs, wanted, manager, selected), events);
            && TwoDesks(s)
            && (Superseded(s.seats, client, false) <==> DeskProofs.First(s).Some? && DeskProofs.First(s).value > client)
  {
    NewInv(outputs, wanted, manager, selected);
    RunInv(NewState(outputs, wanted, manager, selected), events);
    hide DeclarationProofs.Inv, NewState;
  }

  /** A connection beside is there, or has been told that it ended. */
  predicate BesideOrTold(s: State, client: ClientId) {
    TwoDesks(s) && (DeskProofs.Beside(s) == Some(client) || Superseded(s.seats, client, true))
  }

  lemma SeatsTell(s: State, e: Event, t: State, client: ClientId)
    requires SeatsAfter(s, e, t) && (BesideOrTold(s, client) || e == JoinsBeside(client))
    ensures BesideOrTold(t, client)
    ensures Superseded(s.seats, client, true) ==> Superseded(t.seats, client, true)
  {}

  lemma NextTold(s: State, e: Event, client: ClientId)
    requires Inv(s) && Enabled(s, e) && (BesideOrTold(s, client) || e == JoinsBeside(client))
    ensures BesideOrTold(Next(s, e), client)
    ensures Superseded(s.seats, client, true) ==> Superseded(Next(s, e).seats, client, true)
  {
    hide Inv, Next, Enabled, SeatsAfter, BesideOrTold, Superseded;
    NextInv(s, e);
    SeatsTell(s, e, Next(s, e), client);
  }

  /** Once displaced, a connection beside is told so at every later look, whatever happens. */
  lemma {:induction false} DisplacedBesideStaysTold(s: State, events: seq<Event>, client: ClientId)
    requires Inv(s) && CanRun(s, events) && BesideOrTold(s, client)
    ensures BesideOrTold(Run(s, events), client)
    ensures Superseded(s.seats, client, true) ==> Superseded(Run(s, events).seats, client, true)
    decreases |events|
  {
    hide Inv, Next, Enabled, BesideOrTold, Superseded;
    if events != [] {
      NextTold(s, events[0], client);
      NextInv(s, events[0]);
      DisplacedBesideStaysTold(Next(s, events[0]), events[1..], client);
    }
  }

  /** So is one that asked to be beside and was refused. */
  lemma AskedBesideIsThereOrTold(s: State, client: ClientId, later: seq<Event>)
    requires Inv(s) && CanRun(s, [JoinsBeside(client)] + later)
    ensures BesideOrTold(Run(s, [JoinsBeside(client)] + later), client)
  {
    hide Inv, Next, Enabled, BesideOrTold;
    assert ([JoinsBeside(client)] + later)[1..] == later;
    NextTold(s, JoinsBeside(client), client);
    NextInv(s, JoinsBeside(client));
    DisplacedBesideStaysTold(Next(s, JoinsBeside(client)), later, client);
  }

  /** What a connection beside is told is whether it is not there. */
  predicate ToldTheTruth(s: State, client: ClientId) {
    TwoDesks(s) && (Superseded(s.seats, client, true) <==> DeskProofs.Beside(s) != Some(client))
  }

  /** A connection asks to be beside once. */
  predicate AsksOnce(events: seq<Event>, client: ClientId) {
    forall i :: 0 <= i < |events| ==> events[i] != JoinsBeside(client)
  }

  lemma SeatsTellTheTruth(s: State, e: Event, t: State, client: ClientId)
    requires SeatsAfter(s, e, t) && e != JoinsBeside(client) && ToldTheTruth(s, client)
    requires DeskProofs.Beside(s).Some? ==> DeskProofs.First(s).GetOr(0) < DeskProofs.Beside(s).value
    requires DeskProofs.Beside(s).None? || DeskProofs.First(s).Some?
    ensures ToldTheTruth(t, client)
  {}

  lemma NextToldTheTruth(s: State, e: Event, client: ClientId)
    requires Inv(s) && Enabled(s, e) && e != JoinsBeside(client) && ToldTheTruth(s, client)
    ensures ToldTheTruth(Next(s, e), client)
  {
    assert DeskProofs.Desks(s);
    hide Inv, Next, Enabled, SeatsAfter, ToldTheTruth, DeskProofs.OwnRequests;
    NextInv(s, e);
    SeatsTellTheTruth(s, e, Next(s, e), client);
  }

  lemma {:induction false} RunToldTheTruth(s: State, events: seq<Event>, client: ClientId)
    requires Inv(s) && CanRun(s, events) && AsksOnce(events, client) && ToldTheTruth(s, client)
    ensures ToldTheTruth(Run(s, events), client)
    decreases |events|
  {
    hide Inv, Next, Enabled, ToldTheTruth;
    if events != [] {
      NextToldTheTruth(s, events[0], client);
      NextInv(s, events[0]);
      RunToldTheTruth(Next(s, events[0]), events[1..], client);
    }
  }

  /** A connection seated beside is told the truth at every later look, in whatever order others
      join, if and only if nobody newer was there before it; one that took a newer one's place
      is told that it has ended while it is there. */
  lemma SeatedBesideIsToldTheTruth(s: State, client: ClientId)
    requires Inv(s) && Enabled(s, JoinsBeside(client))
    requires JoinBeside(s, client).desks[BESIDE].client == Some(client)
    ensures (forall later :: CanRun(JoinBeside(s, client), later) && AsksOnce(later, client) ==>
               ToldTheTruth(Run(JoinBeside(s, client), later), client))
            <==> DeskProofs.Beside(s).None? || DeskProofs.Beside(s).value < client
  {
    var t := JoinBeside(s, client);
    SeatedBesideIsLive(s, client);
    NextInv(s, JoinsBeside(client));
    assert Inv(t);
    hide JoinBeside, Inv, Next, Enabled;
    if DeskProofs.Beside(s).None? || DeskProofs.Beside(s).value < client {
      forall later | CanRun(t, later) && AsksOnce(later, client) ensures ToldTheTruth(Run(t, later), client) {
        RunToldTheTruth(t, later, client);
      }
    } else {
      assert CanRun(t, []) && AsksOnce([], client) && Run(t, []) == t;
      assert !ToldTheTruth(t, client);
    }
  }

  // ----- sessions of the desktop that are not told

  ghost function NobodyYet(): State {
    NewState(TwoOutputs(), None, false, Some(1))
  }

  /** The desktop's client is displaced by one that is older, and is not told. */
  lemma OlderTakerIsNotTold()
    ensures var events := [Joins(2), Joins(1)];
            && CanRun(NobodyYet(), events)
            && DeskProofs.First(Run(NobodyYet(), events)) == Some(1)
            && !Superseded(Run(NobodyYet(), events).seats, 2, false)
  {
    var s := NobodyYet();
    NewInv(TwoOutputs(), None, false, Some(1));
    NextInv(s, Joins(2));
    var t := ClientJoined(s, 2);
    assert DeskOf(t, 1).None?;
    NextInv(t, Joins(1));
    hide Inv, ClientJoined;
    assert Run(t, [Joins(1)]) == ClientJoined(t, 1) by { assert [Joins(1)][1..] == []; }
    assert [Joins(2), Joins(1)][1..] == [Joins(1)] && [Joins(1)][1..] == [];
    assert CanRun(t, [Joins(1)]);
    assert ClientJoined(t, 1).seats.holder == 1 by { JoinHolds(t, 1); }
  }

  lemma JoinHolds(s: State, client: ClientId)
    requires TwoDesks(s)
    ensures ClientJoined(s, client).seats.holder == client
  {}

  /** By one that is newer but has left again before it looks, and it is not told. */
  lemma GoneTakerIsNotTold()
    ensures var events := [Joins(1), Joins(2), Leaves(2)];
            && CanRun(NobodyYet(), events)
            && DeskProofs.First(Run(NobodyYet(), events)).None?
            && !Superseded(Run(NobodyYet(), events).seats, 1, false)
  {
    var s := NobodyYet();
    NewInv(TwoOutputs(), None, false, Some(1));
    NextInv(s, Joins(1));
    var t := ClientJoined(s, 1);
    assert DeskOf(t, 2).None?;
    NextInv(t, Joins(2));
    var u := ClientJoined(t, 2);
    NextInv(u, Leaves(2));
    assert DeskProofs.Mirrored(ClientLeft(u, 2));
    hide Inv, ClientJoined, ClientLeft, NobodyYet;
    RunThree(s, Joins(1), Joins(2), Leaves(2));
  }

  // ----- joins in the order of numbers

  /** Each client that joins has a number above all that have. */
  predicate InOrder(latest: nat, events: seq<Event>)
    decreases |events|
  {
    events == []
    || (if events[0].Joins? || events[0].JoinsBeside?
        then events[0].client > latest && InOrder(events[0].client, events[1..])
        else InOrder(latest, events[1..]))
  }

  function LatestAfter(latest: nat, e: Event): nat {
    if e.Joins? || e.JoinsBeside? then e.client else latest
  }

  function Latest(latest: nat, events: seq<Event>): nat
    decreases |events|
  {
    if events == [] then latest else Latest(LatestAfter(latest, events[0]), events[1..])
  }

  /** Everybody seated and ended is no newer than the latest to join, and whoever is beside is
      newer than all that have ended there. */
  predicate Ordered(s: State, latest: nat) {
    && TwoDesks(s)
    && DeskProofs.First(s).GetOr(0) <= latest && DeskProofs.Beside(s).GetOr(0) <= latest
    && s.seats.besideEnded <= latest
    && (DeskProofs.Beside(s).Some? ==> s.seats.besideEnded < DeskProofs.Beside(s).value)
  }

  lemma NextOrdered(s: State, e: Event, latest: nat)
    requires Inv(s) && Enabled(s, e) && Ordered(s, latest)
    requires e.Joins? || e.JoinsBeside? ==> e.client > latest
    ensures Ordered(Next(s, e), LatestAfter(latest, e))
  {
    NextInv(s, e);
    hide Inv, Next, Enabled;
  }

  lemma {:induction false} RunOrdered(s: State, events: seq<Event>, latest: nat)
    requires Inv(s) && CanRun(s, events) && Ordered(s, latest) && InOrder(latest, events)
    ensures Ordered(Run(s, events), Latest(latest, events))
    ensures latest <= Latest(latest, events)
    decreases |events|
  {
    hide Inv, Next, Enabled, Ordered;
    if events != [] {
      NextOrdered(s, events[0], latest);
      NextInv(s, events[0]);
      RunOrdered(Next(s, events[0]), events[1..], LatestAfter(latest, events[0]));
    }
  }

  /** The desktop is a client's, or a newer one's, or nobody's. */
  predicate NoneOlder(s: State, client: ClientId) {
    TwoDesks(s) && (DeskProofs.First(s).Some? ==> DeskProofs.First(s).value >= client)
  }

  lemma {:induction false} RunNoneOlder(s: State, events: seq<Event>, latest: nat, client: ClientId)
    requires Inv(s) && CanRun(s, events) && InOrder(latest, events) && client <= latest && NoneOlder(s, client)
    ensures NoneOlder(Run(s, events), client)
    decreases |events|
  {
    if events != [] {
      var e := events[0];
      NextInv(s, e);
      hide Inv, Next, Enabled;
      RunNoneOlder(Next(s, e), events[1..], LatestAfter(latest, e), client);
    }
  }

  lemma {:induction false} InOrderSum(latest: nat, a: seq<Event>, b: seq<Event>)
    requires InOrder(latest, a + b)
    ensures InOrder(latest, a) && InOrder(Latest(latest, a), b)
    decreases |a|
  {
    if a == [] {
      assert a + b == b;
    } else {
      assert (a + b)[1..] == a[1..] + b;
      InOrderSum(LatestAfter(latest, a[0]), a[1..], b);
    }
  }

  /** With clients joining in the order of their numbers every session is told the truth: one
      that asked to be beside is told that it ended if and only if it is not there. */
  lemma BesideIsToldTheTruth(outputs: seq<Output>, wanted: Option<Name>, manager: bool, selected: Option<Name>,
                             earlier: seq<Event>, client: ClientId, later: seq<Event>)
    requires var events := earlier + ([JoinsBeside(client)] + later);
             CanRun(NewState(outputs, wanted, manager, selected), events) && InOrder(0, events)
    ensures var s := Run(NewState(outputs, wanted, manager, selected), earlier + ([JoinsBeside(client)] + later));
            TwoDesks(s) && (Superseded(s.seats, client, true) <==> DeskProofs.Beside(s) != Some(client))
  {
    var (start, mine) := (NewState(outputs, wanted, manager, selected), [JoinsBeside(client)] + later);
    NewInv(outputs, wanted, manager, selected);
    assert Ordered(start, 0);
    hide Inv, NewState, Ordered, InOrder, CanRun, Run;
    RunSum(start, earlier, mine);
    InOrderSum(0, earlier, mine);
    RunInv(start, earlier);
    AskedBesideIsThereOrTold(Run(start, earlier), client, later);
    RunInv(start, earlier + mine);
    RunOrdered(start, earlier + mine, 0);
    BesideNotEnded(Run(start, earlier + mine), Latest(0, earlier + mine));
  }

  lemma BesideNotEnded(s: State, latest: nat)
    requires Ordered(s, latest)
    ensures DeskProofs.Beside(s).Some? ==> !Superseded(s.seats, DeskProofs.Beside(s).value, true)
  {}

  /** And one that took the desktop is told that it lost it if and only if another has it. */
  lemma HolderIsToldTheTruth(outputs: seq<Output>, wanted: Option<Name>, manager: bool, selected: Option<Name>,
                             earlier: seq<Event>, client: ClientId, later: seq<Event>)
    requires var events := earlier + ([Joins(client)] + later);
             CanRun(NewState(outputs, wanted, manager, selected), events) && InOrder(0, events)
    ensures var s := Run(NewState(outputs, wanted, manager, selected), earlier + ([Joins(client)] + later));
            && TwoDesks(s)
            && (Superseded(s.seats, client, false)
                <==> DeskProofs.First(s).Some? && DeskProofs.First(s) != Some(client))
  {
    var (start, mine) := (NewState(outputs, wanted, manager, selected), [Joins(client)] + later);
    NewInv(outputs, wanted, manager, selected);
    ToldWhileANewerHolds(outputs, wanted, manager, selected, earlier + mine, client);
    RunSum(start, earlier, mine);
    InOrderSum(0, earlier, mine);
    RunInv(start, earlier);
    hide Inv, NewState;
    JoinedIsNoneOlder(Run(start, earlier), client, later, Latest(0, earlier));
  }

  lemma JoinedIsNoneOlder(s: State, client: ClientId, later: seq<Event>, latest: nat)
    requires Inv(s) && CanRun(s, [Joins(client)] + later) && InOrder(latest, [Joins(client)] + later)
    ensures NoneOlder(Run(s, [Joins(client)] + later), client)
  {
    assert ([Joins(client)] + later)[1..] == later && ([Joins(client)] + later)[0] == Joins(client);
    JoinsNext(s, client);
    hide Inv, Next, Enabled, NoneOlder;
    RunNoneOlder(Next(s, Joins(client)), later, client, client);
  }

  lemma JoinsNext(s: State, client: ClientId)
    requires Inv(s) && Enabled(s, Joins(client))
    ensures Inv(Next(s, Joins(client))) && NoneOlder(Next(s, Joins(client)), client)
  {
    NextInv(s, Joins(client));
    hide Inv, ClientJoined;
  }
}
