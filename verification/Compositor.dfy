/** Who is on which desk, on which output, and the density declarations that reconfigure
    them one at a time (src/compositor.rs, src/outputs.rs, src/shared.rs).

    Outputs are known by name, a name being its place in the order of names, and have the
    size and scale the compositor last gave them. Every declaration accepted from a desk's
    client is numbered, and `ledger` records what became of it.
 */
module Compositors {
  import opened Options

  type Desk = i: int | 0 <= i < 2
  type ClientId = nat
  type Name = nat

  const FIRST: Desk := 0
  const BESIDE: Desk := 1

  datatype Output = Output(
    id: nat,
    name: Option<Name>,
    width: nat,
    height: nat,
    scale: real,
    done: bool,
    headless: bool)

  datatype Resize = Resize(client: ClientId, width: nat, height: nat)

  /** A declaration that waits for the one out to settle. */
  datatype Waiting = Waiting(client: ClientId, width: nat, height: nat, scale: real, number: nat)

  datatype DeskState = DeskState(
    client: Option<ClientId>,
    pendingResize: Option<Resize>,
    queued: Option<Waiting>,
    selected: Option<Name>)

  /** Who the sessions are told is where: 0 for nobody. */
  datatype Seats = Seats(holder: nat, beside: nat, besideEnded: nat)

  /** The one declaration under way: its configuration's number, its desk and its own number. */
  datatype Declaring = Declaring(id: nat, desk: Desk, number: nat)

  /** What a configuration was for. */
  datatype ConfigKind =
    | ForResize(client: ClientId, width: nat, height: nat, retry: bool)
    | ForDeclare(id: nat, client: ClientId, width: nat, height: nat, scale: real, retry: bool)

  /** What became of a declaration: just accepted, out, waiting, answered, replaced by a newer
      one and answered, or dropped with its client. */
  datatype Status = Arrived | Out | Queued | Settled | Replaced | Dropped
  {
    /** The client is sent the output as it is. */
    predicate Answers() { Settled? || Replaced? }
  }

  /** A declaration's client and desk, what became of it, and how often it was configured and
      answered. */
  datatype Line = Line(client: ClientId, desk: Desk, status: Status, configured: nat, answered: nat)
  {
    function Now(status: Status): Line {
      this.(status := status, answered := if status.Answers() then answered + 1 else answered)
    }
  }

  datatype State = State(
    desks: seq<DeskState>,
    seats: Seats,
    outputs: seq<Output>,
    wanted: Option<Name>,
    manager: bool,
    declaring: Option<Declaring>,
    nextDeclaration: nat,
    // Configurations the compositor has not answered, and syncs not come back.
    configs: map<nat, ConfigKind>,
    nextConfig: nat,
    syncs: set<nat>,
    nextNumber: nat,
    ledger: map<nat, Line>)

  predicate TwoDesks(s: State) {
    |s.desks| == 2
  }

  function WithDesk(s: State, desk: Desk, d: DeskState): (r: State)
    requires TwoDesks(s)
    ensures TwoDesks(r)
  {
    s.(desks := s.desks[desk := d])
  }

  // ----- outputs

  predicate Listable(o: Output) {
    o.done && o.name.Some? && o.width > 0 && o.height > 0
  }

  /** The output of this name, the first where there are several. */
  function Named(outputs: seq<Output>, name: Name): Option<Output> {
    if outputs == [] then None
    else if outputs[0].name == Some(name) then Some(outputs[0])
    else Named(outputs[1..], name)
  }

  function SelectedOutput(s: State, desk: Desk): Option<Output>
    requires TwoDesks(s)
  {
    if s.desks[desk].selected.Some? then Named(s.outputs, s.desks[desk].selected.value) else None
  }

  /** The first entry of the list of outputs, sorted by name, that is not the one left out. */
  function FirstEntry(outputs: seq<Output>, but: Option<Name>): Option<Output> {
    if outputs == [] then None
    else
      var rest := FirstEntry(outputs[1..], but);
      var o := outputs[0];
      if Listable(o) && o.name != but && (rest.None? || o.name.value <= rest.value.name.GetOr(0)) then Some(o)
      else rest
  }

  /** The entry of this name. */
  function EntryNamed(outputs: seq<Output>, name: Name): Option<Output> {
    if outputs == [] then None
    else if Listable(outputs[0]) && outputs[0].name == Some(name) then Some(outputs[0])
    else EntryNamed(outputs[1..], name)
  }

  function Selectable(outputs: seq<Output>, id: nat): Option<Output> {
    if outputs == [] then None
    else if outputs[0].id == id then (if Listable(outputs[0]) then Some(outputs[0]) else None)
    else Selectable(outputs[1..], id)
  }

  // ----- the ledger

  /** Nothing but the declarations' own record differs. */
  predicate SameDesks(s: State, t: State) {
    && t.desks == s.desks && t.seats == s.seats && t.outputs == s.outputs
    && t.wanted == s.wanted && t.manager == s.manager
  }

  function Marked(s: State, number: nat, status: Status): (r: State)
    ensures SameDesks(s, r)
  {
    if number in s.ledger then s.(ledger := s.ledger[number := s.ledger[number].Now(status)]) else s
  }

  function ConfiguredOnce(s: State, number: nat): (r: State)
    ensures SameDesks(s, r)
  {
    if number in s.ledger
    then s.(ledger := s.ledger[number := s.ledger[number].(configured := s.ledger[number].configured + 1)])
    else s
  }

  // ----- desks

  function DeskOf(s: State, client: ClientId): Option<Desk>
    requires TwoDesks(s)
  {
    if s.desks[FIRST].client == Some(client) then Some(FIRST)
    else if s.desks[BESIDE].client == Some(client) then Some(BESIDE)
    else None
  }

  function SeatsEnd(seats: Seats, client: ClientId): Seats {
    seats.(besideEnded := Max(seats.besideEnded, client),
           beside := if seats.beside == client then 0 else seats.beside)
  }

  /** Everything a client held on a desk let go of. */
  function LetGo(s: State, desk: Desk, client: ClientId): (r: State)
    requires TwoDesks(s)
    ensures TwoDesks(r)
  {
    var d := s.desks[desk];
    var kept := if d.pendingResize.Some? && d.pendingResize.value.client == client then None else d.pendingResize;
    var t := WithDesk(s, desk, d.(pendingResize := kept, queued := None));
    if d.queued.Some? then Marked(t, d.queued.value.number, Dropped) else t
  }

  function EndBeside(s: State): (r: State)
    requires TwoDesks(s)
    ensures TwoDesks(r)
  {
    var client := s.desks[BESIDE].client;
    if client.None? then s
    else
      var gone := WithDesk(s, BESIDE, s.desks[BESIDE].(client := None));
      var t := LetGo(gone.(seats := SeatsEnd(s.seats, client.value)), BESIDE, client.value);
      WithDesk(t, BESIDE, t.desks[BESIDE].(selected := None))
  }

  function ShareOutput(s: State, desk: Desk, name: Name): (r: State)
    requires TwoDesks(s)
    ensures TwoDesks(r)
  {
    var t := if desk == FIRST && s.desks[BESIDE].selected == Some(name) then EndBeside(s) else s;
    WithDesk(t, desk, t.desks[desk].(pendingResize := None, selected := Some(name)))
  }

  /** The configured output where it is listed, the first listed otherwise. */
  function AdoptOutput(s: State): (r: State)
    requires TwoDesks(s)
    ensures TwoDesks(r)
  {
    var named := if s.wanted.Some? then EntryNamed(s.outputs, s.wanted.value) else None;
    var entry := if named.Some? then named else FirstEntry(s.outputs, None);
    if entry.None? || Selectable(s.outputs, entry.value.id).None? then s
    else ShareOutput(s, FIRST, entry.value.name.GetOr(0))
  }

  function OutputGone(s: State, desk: Desk): (r: State)
    requires TwoDesks(s)
    ensures TwoDesks(r)
  {
    if desk == FIRST then AdoptOutput(WithDesk(s, FIRST, s.desks[FIRST].(selected := None)))
    else EndBeside(s)
  }

  function ClientJoined(s: State, client: ClientId): (r: State)
    requires TwoDesks(s)
    ensures TwoDesks(r)
  {
    var previous := s.desks[FIRST].client;
    var t := WithDesk(s, FIRST, s.desks[FIRST].(client := Some(client)));
    var u := if previous.Some? then EndBeside(LetGo(t, FIRST, previous.value)) else t;
    u.(seats := u.seats.(holder := client))
  }

  /** A connection seated beside, once whoever was there has ended. */
  function SeatBeside(s: State, client: ClientId): (r: State)
    requires TwoDesks(s)
    ensures TwoDesks(r)
  {
    var t := EndBeside(s);
    var entry := FirstEntry(t.outputs, t.desks[FIRST].selected);
    if entry.None? || Selectable(t.outputs, entry.value.id).None? then t.(seats := SeatsEnd(t.seats, client))
    else
      var seated := WithDesk(t, BESIDE, t.desks[BESIDE].(client := Some(client)));
      var shared := ShareOutput(seated, BESIDE, entry.value.name.GetOr(0));
      shared.(seats := shared.seats.(beside := client))
  }

  function JoinBeside(s: State, client: ClientId): (r: State)
    requires TwoDesks(s)
    ensures TwoDesks(r)
  {
    var holder := s.desks[FIRST].client;
    if s.seats.besideEnded >= client || holder.None? || holder.value > client
    then s.(seats := SeatsEnd(s.seats, client))
    else SeatBeside(s, client)
  }

  function ClientLeft(s: State, client: ClientId): (r: State)
    requires TwoDesks(s)
    ensures TwoDesks(r)
  {
    match DeskOf(s, client)
    case None => s
    case Some(desk) =>
      var t := EndBeside(s);
      if desk != FIRST then t
      else
        var left := WithDesk(t, FIRST, t.desks[FIRST].(client := None));
        LetGo(left.(seats := left.seats.(holder := 0)), FIRST, client)
  }

  function SelectOutput(s: State, client: ClientId, id: nat): (r: State)
    requires TwoDesks(s)
    ensures TwoDesks(r)
  {
    var output := Selectable(s.outputs, id);
    if DeskOf(s, client) != Some(FIRST) || output.None? || s.desks[FIRST].selected == output.value.name then s
    else ShareOutput(s, FIRST, output.value.name.GetOr(0))
  }

  // ----- configurations

  /** Whether a configuration of a desk's output can be sent at all. */
  predicate CanConfigure(s: State, desk: Desk)
    requires TwoDesks(s)
  {
    s.manager && SelectedOutput(s, desk).Some? && SelectedOutput(s, desk).value.headless
  }

  function SendConfig(s: State, kind: ConfigKind): (r: State)
    ensures SameDesks(s, r)
  {
    s.(configs := s.configs[s.nextConfig := kind], nextConfig := s.nextConfig + 1)
  }

  function ResizeDesk(s: State, desk: Desk, client: ClientId, w: nat, h: nat, retry: bool): (r: State)
    requires TwoDesks(s)
    ensures TwoDesks(r)
  {
    if w == 0 || h == 0 then s
    else if CanConfigure(s, desk) then
      SendConfig(WithDesk(s, desk, s.desks[desk].(pendingResize := Some(Resize(client, w, h)))),
                 ForResize(client, w, h, retry))
    else WithDesk(s, desk, s.desks[desk].(pendingResize := None))
  }

  /** How far the scale asked for is from the one there is. */
  function Apart(a: real, b: real): real {
    if a < b then b - a else a - b
  }

  function ScaleOf(s: State, desk: Desk): real
    requires TwoDesks(s)
  {
    if SelectedOutput(s, desk).Some? then SelectedOutput(s, desk).value.scale else 1.0
  }

  predicate NewScale(s: State, desk: Desk, scale: real)
    requires TwoDesks(s)
  {
    Apart(ScaleOf(s, desk), scale) >= 0.005
  }

  predicate NewSize(s: State, desk: Desk, w: nat, h: nat)
    requires TwoDesks(s)
  {
    var o := SelectedOutput(s, desk);
    if o.Some? then w != o.value.width || h != o.value.height else w != 0 || h != 0
  }

  /** A declaration put behind the one out, in place of any of its desk's already there. */
  function Queue(s: State, desk: Desk, waiting: Waiting): (r: State)
    requires TwoDesks(s)
    ensures TwoDesks(r)
  {
    var before := s.desks[desk].queued;
    var t := WithDesk(s, desk, s.desks[desk].(queued := Some(waiting)));
    var u := if before.Some? then Marked(t, before.value.number, Replaced) else t;
    Marked(u, waiting.number, Queued)
  }

  /** A declaration's configuration sent, where there is anything to change and a way to. */
  function Configure(s: State, desk: Desk, d: Waiting, retry: bool): (r: State)
    requires TwoDesks(s)
    ensures TwoDesks(r)
  {
    if !NewScale(s, desk, d.scale) && !NewSize(s, desk, d.width, d.height) then Marked(s, d.number, Settled)
    else
      var t := s.(nextDeclaration := s.nextDeclaration + 1);
      if !CanConfigure(s, desk) then
        Marked(WithDesk(t, desk, t.desks[desk].(pendingResize := None)), d.number, Settled)
      else
        var pending := if NewSize(s, desk, d.width, d.height) then Some(Resize(d.client, d.width, d.height)) else None;
        var u := WithDesk(t, desk, t.desks[desk].(pendingResize := pending));
        var v := SendConfig(u, ForDeclare(s.nextDeclaration, d.client, d.width, d.height, d.scale, retry));
        Marked(ConfiguredOnce(v, d.number), d.number, Out)
          .(declaring := Some(Declaring(s.nextDeclaration, desk, d.number)))
  }

  function Declare(s: State, desk: Desk, d: Waiting, retry: bool): (r: State)
    requires TwoDesks(s)
    ensures TwoDesks(r)
  {
    if s.declaring.Some? then Queue(s, desk, d) else Configure(s, desk, d, retry)
  }

  function Accepted(s: State, desk: Desk, client: ClientId): (r: State)
    ensures SameDesks(s, r)
  {
    s.(ledger := s.ledger[s.nextNumber := Line(client, desk, Arrived, 0, 0)], nextNumber := s.nextNumber + 1)
  }

  /** A desk's client declares its density, which is given the next number. */
  function ClientDeclares(s: State, client: ClientId, w: nat, h: nat, scale: real): (r: State)
    requires TwoDesks(s)
    ensures TwoDesks(r)
  {
    match DeskOf(s, client)
    case None => s
    case Some(desk) =>
      Declare(Accepted(s, desk, client), desk, Waiting(client, w, h, scale, s.nextNumber), false)
  }

  /** The declaration that waited on a desk run, if its client is still there. */
  function RunQueued(s: State, desk: Desk): (r: State)
    requires TwoDesks(s)
    ensures TwoDesks(r)
  {
    var waiting := s.desks[desk].queued;
    if s.declaring.Some? || waiting.None? then s
    else
      var t := WithDesk(s, desk, s.desks[desk].(queued := None));
      if s.desks[desk].client == Some(waiting.value.client) then Declare(t, desk, waiting.value, false)
      else Marked(t, waiting.value.number, Dropped)
  }

  function DeclarationSettled(s: State): (r: State)
    requires TwoDesks(s)
    ensures TwoDesks(r)
  {
    RunQueued(RunQueued(s, FIRST), BESIDE)
  }

  /** The declaration out answered. */
  function SettleOut(s: State): (r: State)
    requires TwoDesks(s) && s.declaring.Some?
    ensures TwoDesks(r)
  {
    Marked(s, s.declaring.value.number, Settled).(declaring := None)
  }

  /** A head whose scale changed is a desk's: the declaration out for that desk is answered. */
  function ScaleChangedOn(s: State, desk: Desk): (r: State)
    requires TwoDesks(s)
    ensures TwoDesks(r)
  {
    if s.declaring.Some? && s.declaring.value.desk == desk then DeclarationSettled(SettleOut(s)) else s
  }

  predicate IsOn(s: State, desk: Desk, name: Option<Name>)
    requires TwoDesks(s)
  {
    name.Some? && s.desks[desk].selected == name
  }

  /** Which desks a head is on is looked up before either is settled. */
  function ScaleChanged(s: State, name: Option<Name>): (r: State)
    requires TwoDesks(s)
    ensures TwoDesks(r)
  {
    var (first, beside) := (IsOn(s, FIRST, name), IsOn(s, BESIDE, name));
    var t := if first then ScaleChangedOn(s, FIRST) else s;
    if beside then ScaleChangedOn(t, BESIDE) else t
  }

  function ManagerDone(s: State, changed: seq<Option<Name>>): (r: State)
    requires TwoDesks(s)
    ensures TwoDesks(r)
    decreases |changed|
  {
    if changed == [] then s
    else ScaleChanged(ManagerDone(s, changed[..|changed| - 1]), changed[|changed| - 1])
  }

  predicate IsOut(s: State, id: nat) {
    s.declaring.Some? && s.declaring.value.id == id
  }

  function Forgotten(s: State, config: nat): State {
    s.(configs := s.configs - {config})
  }

  function Succeeded(s: State, kind: ConfigKind): State {
    if kind.ForDeclare? && IsOut(s, kind.id) then s.(syncs := s.syncs + {kind.id}) else s
  }

  function WithoutResize(s: State, desk: Desk): (r: State)
    requires TwoDesks(s)
    ensures TwoDesks(r)
  {
    WithDesk(s, desk, s.desks[desk].(pendingResize := None))
  }

  /** A configuration the layout changed under, asked again. */
  function AskedAgain(s: State, kind: ConfigKind): (r: State)
    requires TwoDesks(s)
    ensures TwoDesks(r)
  {
    match kind
    case ForResize(client, w, h, _) =>
      var desk := DeskOf(s, client);
      if desk.None? then s else ResizeDesk(WithoutResize(s, desk.value), desk.value, client, w, h, true)
    case ForDeclare(id, client, w, h, scale, _) =>
      if !IsOut(s, id) then s
      else
        var out := s.declaring.value;
        var t := WithoutResize(s.(declaring := None), out.desk);
        var again :=
          if t.desks[out.desk].client == Some(client)
          then Declare(t, out.desk, Waiting(client, w, h, scale, out.number), true)
          else Marked(t, out.number, Dropped);
        DeclarationSettled(again)
  }

  function ConfigRefused(s: State, kind: ConfigKind): (r: State)
    requires TwoDesks(s)
    ensures TwoDesks(r)
  {
    match kind
    case ForResize(client, _, _, _) =>
      var desk := DeskOf(s, client);
      if desk.None? then s else WithoutResize(s, desk.value)
    case ForDeclare(id, _, _, _, _, _) =>
      if !IsOut(s, id) then s
      else DeclarationSettled(SettleOut(WithoutResize(s, s.declaring.value.desk)))
  }

  datatype Answer = Success | Cancellation | Failure

  function ConfigAnswered(s: State, config: nat, answer: Answer): (r: State)
    requires TwoDesks(s) && config in s.configs
    ensures TwoDesks(r)
  {
    var kind := s.configs[config];
    var t := Forgotten(s, config);
    match answer
    case Success => Succeeded(t, kind)
    case Cancellation => if kind.retry then ConfigRefused(t, kind) else AskedAgain(t, kind)
    case Failure => ConfigRefused(t, kind)
  }

  function SyncDone(s: State, id: nat): (r: State)
    requires TwoDesks(s)
    ensures TwoDesks(r)
  {
    var t := s.(syncs := s.syncs - {id});
    if IsOut(t, id) then DeclarationSettled(SettleOut(t)) else t
  }

  // ----- outputs coming and going

  function OutputDone(s: State, o: Output): (r: State)
    requires TwoDesks(s)
    ensures TwoDesks(r)
  {
    var appeared := !(exists i :: 0 <= i < |s.outputs| && s.outputs[i].id == o.id && s.outputs[i].done);
    var t := s.(outputs := Replace(s.outputs, o));
    if t.desks[FIRST].selected.None? then AdoptOutput(t)
    else if appeared && o.name.Some? && t.wanted == o.name && t.desks[FIRST].selected != o.name then AdoptOutput(t)
    else t
  }

  function Replace(outputs: seq<Output>, o: Output): seq<Output> {
    if outputs == [] then [o]
    else if outputs[0].id == o.id then [o] + outputs[1..]
    else [outputs[0]] + Replace(outputs[1..], o)
  }

  function OutputRemoved(s: State, i: nat): (r: State)
    requires TwoDesks(s) && i < |s.outputs|
    ensures TwoDesks(r)
  {
    var name := s.outputs[i].name;
    var (first, beside) := (IsOn(s, FIRST, name), IsOn(s, BESIDE, name));
    var t := s.(outputs := s.outputs[..i] + s.outputs[i + 1..]);
    var u := if first then OutputGone(t, FIRST) else t;
    if beside then OutputGone(u, BESIDE) else u
  }

  /** A frame of the size a resize asked for is that resize's. */
  function FrameTaken(s: State, desk: Desk, w: nat, h: nat): (r: State)
    requires TwoDesks(s)
    ensures TwoDesks(r)
  {
    var p := s.desks[desk].pendingResize;
    if p.Some? && p.value.width == w && p.value.height == h then WithoutResize(s, desk) else s
  }

  function NewState(outputs: seq<Output>, wanted: Option<Name>, manager: bool, selected: Option<Name>): State {
    State([DeskState(None, None, None, selected), DeskState(None, None, None, None)],
          Seats(0, 0, 0), outputs, wanted, manager, None, 0, map[], 0, {}, 0, map[])
  }
}
