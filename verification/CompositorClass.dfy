/** The compositor thread's handlers, which change its fields in place, step by step as the
    source takes them (src/compositor.rs, src/outputs.rs).

    A valid compositor is one whose desks and declarations keep their invariants. Every
    event it can be given leaves it valid, and in the state the event leads to; in between,
    a handler's own steps keep its shape alone.
 */
module CompositorThread {
  import opened Options
  import opened Compositors
  import opened CompositorRuns
  import DeskProofs
  import DeclarationProofs

  class Compositor {
    var desks: seq<DeskState>
    var seats: Seats
    var outputs: seq<Output>
    var wanted: Option<Name>
    var manager: bool
    var declaring: Option<Declaring>
    var nextDeclaration: nat
    var configs: map<nat, ConfigKind>
    var nextConfig: nat
    var syncs: set<nat>
    var nextNumber: nat
    var ledger: map<nat, Line>

    /** Two desks, and configurations numbered below the next. */
    ghost predicate Shaped()
      reads this
    {
      |desks| == 2 && forall c :: c in configs ==> c < nextConfig
    }

    /** The desks' invariant and the declarations' hold. */
    ghost predicate Valid()
      reads this
    {
      Shaped() && Inv(Model())
    }

    function Model(): State
      reads this
    {
      State(desks, seats, outputs, wanted, manager, declaring, nextDeclaration,
            configs, nextConfig, syncs, nextNumber, ledger)
    }

    constructor (outputs: seq<Output>, wanted: Option<Name>, manager: bool, selected: Option<Name>)
      ensures Valid()
      ensures Model() == NewState(outputs, wanted, manager, selected)
    {
      hide Inv;
      NewInv(outputs, wanted, manager, selected);
      this.desks := [DeskState(None, None, None, selected), DeskState(None, None, None, None)];
      this.seats := Seats(0, 0, 0);
      this.outputs := outputs;
      this.wanted := wanted;
      this.manager := manager;
      this.declaring := None;
      this.nextDeclaration, this.nextConfig, this.nextNumber := 0, 0, 0;
      this.configs, this.syncs, this.ledger := map[], {}, map[];
    }

    // ----- the record of what became of each declaration

    method Record(number: nat, status: Status)
      modifies this`ledger
      ensures Model() == Marked(old(Model()), number, status)
    {
      if number in ledger {
        ledger := ledger[number := ledger[number].Now(status)];
      }
    }

    // ----- lookups

    /** The desk a client is on, the first where it would be on both. */
    method FindDesk(client: ClientId) returns (found: Option<Desk>)
      requires Shaped()
      ensures found == DeskOf(Model(), client)
    {
      for desk := 0 to 2
        invariant forall d: Desk :: d < desk ==> desks[d].client != Some(client)
      {
        if desks[desk].client == Some(client) {
          return Some(desk);
        }
      }
      found := None;
    }

    /** The output a desk shares, if the compositor still has it. */
    method FindSelected(desk: Desk) returns (output: Option<Output>)
      requires Shaped()
      ensures output == SelectedOutput(Model(), desk)
    {
      if desks[desk].selected.None? {
        return None;
      }
      for i := 0 to |outputs|
        invariant Named(outputs, desks[desk].selected.value) == Named(outputs[i..], desks[desk].selected.value)
      {
        if outputs[i].name == desks[desk].selected {
          return Some(outputs[i]);
        }
        assert outputs[i..][1..] == outputs[i + 1..];
      }
      output := None;
    }

    /** The output of this number, if it can be shared. */
    method FindSelectable(id: nat) returns (output: Option<Output>)
      ensures output == Selectable(outputs, id)
    {
      for i := 0 to |outputs|
        invariant Selectable(outputs, id) == Selectable(outputs[i..], id)
      {
        if outputs[i].id == id {
          return if Listable(outputs[i]) then Some(outputs[i]) else None;
        }
        assert outputs[i..][1..] == outputs[i + 1..];
      }
      output := None;
    }

    /** The listed output of the configured name. */
    method FindWanted() returns (entry: Option<Output>)
      ensures entry == if wanted.Some? then EntryNamed(outputs, wanted.value) else None
    {
      if wanted.None? {
        return None;
      }
      for i := 0 to |outputs|
        invariant EntryNamed(outputs, wanted.value) == EntryNamed(outputs[i..], wanted.value)
      {
        if Listable(outputs[i]) && outputs[i].name == wanted {
          return Some(outputs[i]);
        }
        assert outputs[i..][1..] == outputs[i + 1..];
      }
      entry := None;
    }

    /** The first listed by name, leaving one out. */
    method FindFirst(but: Option<Name>) returns (entry: Option<Output>)
      ensures entry == FirstEntry(outputs, but)
    {
      entry := None;
      for i := |outputs| downto 0
        invariant entry == FirstEntry(outputs[i..], but)
      {
        assert outputs[i..][1..] == outputs[i + 1..];
        var o := outputs[i];
        if Listable(o) && o.name != but && (entry.None? || o.name.value <= entry.value.name.GetOr(0)) {
          entry := Some(o);
        }
      }
    }

    // ----- desks

    method LetGoOf(desk: Desk, client: ClientId)
      requires Shaped()
      modifies this
      ensures Shaped()
      ensures Model() == LetGo(old(Model()), desk, client)
    {
      var waiting := desks[desk].queued;
      if desks[desk].pendingResize.Some? && desks[desk].pendingResize.value.client == client {
        desks := desks[desk := desks[desk].(pendingResize := None)];
      }
      desks := desks[desk := desks[desk].(queued := None)];
      if waiting.Some? {
        Record(waiting.value.number, Dropped);
      }
    }

    method EndDisplayBeside()
      requires Shaped()
      modifies this
      ensures Shaped()
      ensures Model() == EndBeside(old(Model()))
    {
      var client := desks[BESIDE].client;
      if client.None? {
        return;
      }
      desks := desks[BESIDE := desks[BESIDE].(client := None)];
      EndSeat(client.value);
      LetGoOf(BESIDE, client.value);
      desks := desks[BESIDE := desks[BESIDE].(selected := None)];
    }

    method EndSeat(client: ClientId)
      modifies this`seats
      ensures Model() == old(Model()).(seats := SeatsEnd(old(seats), client))
    {
      seats := seats.(besideEnded := Max(seats.besideEnded, client));
      if seats.beside == client {
        seats := seats.(beside := 0);
      }
    }

    method Share(desk: Desk, name: Name)
      requires Shaped()
      modifies this
      ensures Shaped()
      ensures Model() == ShareOutput(old(Model()), desk, name)
    {
      if desk == FIRST && desks[BESIDE].selected == Some(name) {
        EndDisplayBeside();
      }
      desks := desks[desk := desks[desk].(pendingResize := None)];
      desks := desks[desk := desks[desk].(selected := Some(name))];
    }

    method Adopt()
      requires Shaped()
      modifies this
      ensures Shaped()
      ensures Model() == AdoptOutput(old(Model()))
    {
      hide ShareOutput, EntryNamed, FirstEntry, Selectable;
      var entry := FindWanted();
      if entry.None? {
        entry := FindFirst(None);
      }
      if entry.None? {
        return;
      }
      var output := FindSelectable(entry.value.id);
      if output.Some? {
        Share(FIRST, entry.value.name.GetOr(0));
      }
    }

    method Gone(desk: Desk)
      requires Shaped()
      modifies this
      ensures Shaped()
      ensures Model() == OutputGone(old(Model()), desk)
    {
      if desk == FIRST {
        desks := desks[FIRST := desks[FIRST].(selected := None)];
        Adopt();
      } else {
        EndDisplayBeside();
      }
    }

    method Joined(client: ClientId)
      requires Valid() && Enabled(Model(), Joins(client))
      modifies this
      ensures Valid() && Model() == ClientJoined(old(Model()), client)
    {
      hide Inv, LetGo, EndBeside;
      NextInv(Model(), Joins(client));
      var previous := desks[FIRST].client;
      desks := desks[FIRST := desks[FIRST].(client := Some(client))];
      if previous.Some? {
        LetGoOf(FIRST, previous.value);
        EndDisplayBeside();
      }
      seats := seats.(holder := client);
    }

    method JoinedBeside(client: ClientId)
      requires Valid() && Enabled(Model(), JoinsBeside(client))
      modifies this
      ensures Valid() && Model() == JoinBeside(old(Model()), client)
    {
      hide Inv, EndBeside, ShareOutput, FirstEntry, Selectable;
      NextInv(Model(), JoinsBeside(client));
      var holder := desks[FIRST].client;
      if seats.besideEnded >= client || holder.None? || holder.value > client {
        EndSeat(client);
        return;
      }
      EndDisplayBeside();
      var entry := FindFirst(desks[FIRST].selected);
      if entry.None? {
        EndSeat(client);
        return;
      }
      var output := FindSelectable(entry.value.id);
      if output.None? {
        EndSeat(client);
        return;
      }
      desks := desks[BESIDE := desks[BESIDE].(client := Some(client))];
      Share(BESIDE, entry.value.name.GetOr(0));
      seats := seats.(beside := client);
    }

    method Left(client: ClientId)
      requires Valid() && Enabled(Model(), Leaves(client))
      modifies this
      ensures Valid() && Model() == ClientLeft(old(Model()), client)
    {
      hide Inv, LetGo, EndBeside;
      NextInv(Model(), Leaves(client));
      var desk := FindDesk(client);
      if desk.None? {
        return;
      }
      EndDisplayBeside();
      if desk.value == FIRST {
        desks := desks[FIRST := desks[FIRST].(client := None)];
        seats := seats.(holder := 0);
        LetGoOf(FIRST, client);
      }
    }

    method Select(client: ClientId, id: nat)
      requires Valid() && Enabled(Model(), Selects(client, id))
      modifies this
      ensures Valid() && Model() == SelectOutput(old(Model()), client, id)
    {
      hide Inv, ShareOutput, Selectable;
      NextInv(Model(), Selects(client, id));
      var desk := FindDesk(client);
      if desk != Some(FIRST) {
        return;
      }
      var output := FindSelectable(id);
      if output.None? || desks[FIRST].selected == output.value.name {
        return;
      }
      Share(FIRST, output.value.name.GetOr(0));
    }

    // ----- configurations

    /** A configuration of a desk's output goes out exactly where there is a manager to send it
        to and the output is headless. Nothing unanswered has its number, and nothing
        unanswered is forgotten for it. */
    method SendConfiguration(desk: Desk, kind: ConfigKind) returns (sent: bool)
      requires Shaped()
      modifies this`configs, this`nextConfig
      ensures Shaped()
      ensures sent <==>
                manager && exists o :: o in outputs && SelectedOutput(old(Model()), desk) == Some(o) && o.headless
      ensures sent == CanConfigure(old(Model()), desk)
      ensures Model() == if sent then SendConfig(old(Model()), kind) else old(Model())
      ensures sent ==> old(nextConfig) !in old(configs)
      ensures sent ==> old(nextConfig) in configs && configs[old(nextConfig)] == kind
      ensures forall c :: c in old(configs) ==> c in configs && configs[c] == old(configs[c])
    {
      if !manager {
        return false;
      }
      var output := FindSelected(desk);
      if output.None? {
        return false;
      }
      NamedIsListed(outputs, desks[desk].selected.value);
      if !output.value.headless {
        return false;
      }
      configs := configs[nextConfig := kind];
      nextConfig := nextConfig + 1;
      sent := true;
    }

    method Resize(desk: Desk, client: ClientId, w: nat, h: nat, retry: bool)
      requires Shaped()
      modifies this
      ensures Shaped()
      ensures Model() == ResizeDesk(old(Model()), desk, client, w, h, retry)
    {
      if w == 0 || h == 0 {
        return;
      }
      desks := desks[desk := desks[desk].(pendingResize := Some(Compositors.Resize(client, w, h)))];
      var sent := SendConfiguration(desk, ForResize(client, w, h, retry));
      if !sent {
        desks := desks[desk := desks[desk].(pendingResize := None)];
      }
    }

    method PutBehind(desk: Desk, waiting: Waiting)
      requires Shaped()
      modifies this
      ensures Shaped()
      ensures Model() == Queue(old(Model()), desk, waiting)
    {
      var before := desks[desk].queued;
      desks := desks[desk := desks[desk].(queued := Some(waiting))];
      hide Marked;
      if before.Some? {
        Record(before.value.number, Replaced);
      }
      Record(waiting.number, Queued);
    }

    /** The declaration's configuration is out. */
    method NoteOut(desk: Desk, id: nat, number: nat)
      requires Shaped()
      modifies this`ledger, this`declaring
      ensures Model() == Marked(ConfiguredOnce(old(Model()), number), number, Out)
                         .(declaring := Some(Declaring(id, desk, number)))
    {
      declaring := Some(Declaring(id, desk, number));
      if number in ledger {
        ledger := ledger[number := ledger[number].(configured := ledger[number].configured + 1)];
      }
      Record(number, Out);
    }

    /** Which of a declaration's scale and size differ from the output's. */
    method Differs(desk: Desk, d: Waiting) returns (newScale: bool, newSize: bool)
      requires Shaped()
      ensures newScale == NewScale(Model(), desk, d.scale) && newSize == NewSize(Model(), desk, d.width, d.height)
    {
      var output := FindSelected(desk);
      hide SelectedOutput;
      var current := if output.Some? then output.value.scale else 1.0;
      var (w, h) := if output.Some? then (output.value.width, output.value.height) else (0, 0);
      newScale := (if current < d.scale then d.scale - current else current - d.scale) >= 0.005;
      newSize := (d.width, d.height) != (w, h);
    }

    method ConfigureFor(desk: Desk, d: Waiting, retry: bool)
      requires Shaped()
      modifies this
      ensures Shaped()
      ensures Model() == Configure(old(Model()), desk, d, retry)
    {
      hide Marked, ConfiguredOnce, NewScale, NewSize;
      var newScale, newSize := Differs(desk, d);
      if !newScale && !newSize {
        Record(d.number, Settled);
        return;
      }
      var pending := if newSize then Some(Compositors.Resize(d.client, d.width, d.height)) else None;
      desks := desks[desk := desks[desk].(pendingResize := pending)];
      var id := nextDeclaration;
      nextDeclaration := nextDeclaration + 1;
      assert CanConfigure(Model(), desk) == CanConfigure(old(Model()).(nextDeclaration := nextDeclaration), desk);
      hide CanConfigure, SelectedOutput, SendConfig;
      var sent := SendConfiguration(desk, ForDeclare(id, d.client, d.width, d.height, d.scale, retry));
      if sent {
        NoteOut(desk, id, d.number);
      } else {
        desks := desks[desk := desks[desk].(pendingResize := None)];
        assert desks == old(desks)[desk := old(desks)[desk].(pendingResize := None)];
        Record(d.number, Settled);
      }
    }

    /** A declaration waits for the one out, if there is one. */
    method DeclareOn(desk: Desk, d: Waiting, retry: bool)
      requires Shaped()
      modifies this
      ensures Shaped()
      ensures Model() == Declare(old(Model()), desk, d, retry)
    {
      hide Queue, Configure;
      if declaring.Some? {
        PutBehind(desk, d);
      } else {
        ConfigureFor(desk, d, retry);
      }
    }

    method ClientDeclared(client: ClientId, w: nat, h: nat, scale: real)
      requires Valid() && Enabled(Model(), Declares(client, w, h, scale))
      modifies this
      ensures Valid() && Model() == ClientDeclares(old(Model()), client, w, h, scale)
    {
      hide Inv, Declare;
      NextInv(Model(), Declares(client, w, h, scale));
      var desk := FindDesk(client);
      if desk.Some? {
        var number := nextNumber;
        ledger := ledger[number := Line(client, desk.value, Arrived, 0, 0)];
        nextNumber := nextNumber + 1;
        DeclareOn(desk.value, Waiting(client, w, h, scale, number), false);
      }
    }

    /** The declaration out has been answered: one that waited is run, if its client is there. */
    method RunWaiting()
      requires Shaped()
      modifies this
      ensures Shaped()
      ensures Model() == DeclarationSettled(old(Model()))
    {
      ghost var was := Model();
      hide Declare;
      for desk := 0 to 2
        invariant Shaped()
        invariant Model() == if desk == 0 then was
                             else if desk == 1 then RunQueued(was, FIRST)
                             else DeclarationSettled(was)
      {
        if declaring.None? {
          var waiting := desks[desk].queued;
          desks := desks[desk := desks[desk].(queued := None)];
          if waiting.Some? {
            if desks[desk].client == Some(waiting.value.client) {
              DeclareOn(desk, waiting.value, false);
            } else {
              Record(waiting.value.number, Dropped);
            }
          }
        }
      }
    }

    method Settle()
      requires Shaped() && declaring.Some?
      modifies this
      ensures Shaped()
      ensures Model() == DeclarationSettled(SettleOut(old(Model())))
    {
      hide DeclarationSettled;
      var number := declaring.value.number;
      declaring := None;
      Record(number, Settled);
      RunWaiting();
    }

    /** The manager's `done`: every head whose scale changed, on every desk it is on. */
    method Done(changed: seq<Option<Name>>)
      requires Valid() && Enabled(Model(), HeadsChange(changed))
      modifies this
      ensures Valid() && Model() == ManagerDone(old(Model()), changed)
    {
      hide Inv, DeclarationSettled, SettleOut;
      ghost var was := Model();
      NextInv(was, HeadsChange(changed));
      for i := 0 to |changed|
        invariant Shaped()
        invariant Model() == ManagerDone(was, changed[..i])
      {
        assert changed[..i + 1][..i] == changed[..i];
        var name := changed[i];
        var first := name.Some? && desks[FIRST].selected == name;
        var beside := name.Some? && desks[BESIDE].selected == name;
        if first && declaring.Some? && declaring.value.desk == FIRST {
          Settle();
        }
        if beside && declaring.Some? && declaring.value.desk == BESIDE {
          Settle();
        }
      }
      assert changed[..|changed|] == changed;
    }

    method Refused(kind: ConfigKind)
      requires Shaped()
      modifies this
      ensures Shaped()
      ensures Model() == ConfigRefused(old(Model()), kind)
    {
      hide DeclarationSettled, SettleOut;
      if kind.ForResize? {
        var desk := FindDesk(kind.client);
        if desk.Some? {
          desks := desks[desk.value := desks[desk.value].(pendingResize := None)];
        }
      } else if declaring.Some? && declaring.value.id == kind.id {
        var desk := declaring.value.desk;
        desks := desks[desk := desks[desk].(pendingResize := None)];
        Settle();
      }
    }

    method AskAgain(kind: ConfigKind)
      requires Shaped()
      modifies this
      ensures Shaped()
      ensures Model() == AskedAgain(old(Model()), kind)
    {
      hide DeclarationSettled, Declare, ResizeDesk;
      match kind
      case ForResize(client, w, h, _) =>
        var desk := FindDesk(client);
        if desk.Some? {
          desks := desks[desk.value := desks[desk.value].(pendingResize := None)];
          Resize(desk.value, client, w, h, true);
        }
      case ForDeclare(id, client, w, h, scale, _) =>
        if declaring.Some? && declaring.value.id == id {
          var out := declaring.value;
          declaring := None;
          desks := desks[out.desk := desks[out.desk].(pendingResize := None)];
          if desks[out.desk].client == Some(client) {
            DeclareOn(out.desk, Waiting(client, w, h, scale, out.number), true);
          } else {
            Record(out.number, Dropped);
          }
          RunWaiting();
        }
    }

    /** The compositor's answer to a configuration. */
    method Answered(config: nat, answer: Answer)
      requires Valid() && Enabled(Model(), Answers(config, answer))
      modifies this
      ensures Valid() && Model() == ConfigAnswered(old(Model()), config, answer)
    {
      hide Inv, ConfigRefused, AskedAgain;
      NextInv(Model(), Answers(config, answer));
      var kind := configs[config];
      configs := configs - {config};
      match answer
      case Success =>
        if kind.ForDeclare? && declaring.Some? && declaring.value.id == kind.id {
          syncs := syncs + {kind.id};
        }
      case Cancellation =>
        if kind.retry {
          Refused(kind);
        } else {
          AskAgain(kind);
        }
      case Failure =>
        Refused(kind);
    }

    /** The round trip after a success is back. */
    method Synced(id: nat)
      requires Valid() && Enabled(Model(), Syncs(id))
      modifies this
      ensures Valid() && Model() == SyncDone(old(Model()), id)
    {
      hide Inv, DeclarationSettled, SettleOut;
      NextInv(Model(), Syncs(id));
      syncs := syncs - {id};
      if declaring.Some? && declaring.value.id == id {
        Settle();
      }
    }

    // ----- outputs

    /** An output's properties have all arrived. */
    method OutputIsDone(o: Output)
      requires Valid() && Enabled(Model(), Event.OutputIsDone(o))
      modifies this
      ensures Valid() && Model() == OutputDone(old(Model()), o)
    {
      hide Inv, AdoptOutput;
      NextInv(Model(), Event.OutputIsDone(o));
      var appeared := !(exists i :: 0 <= i < |outputs| && outputs[i].id == o.id && outputs[i].done);
      outputs := Replace(outputs, o);
      if desks[FIRST].selected.None? {
        Adopt();
      } else if appeared && o.name.Some? && wanted == o.name && desks[FIRST].selected != o.name {
        Adopt();
      }
    }

    method OutputIsGone(i: nat)
      requires Valid() && Enabled(Model(), OutputGoes(i))
      modifies this
      ensures Valid() && Model() == OutputRemoved(old(Model()), i)
    {
      hide Inv, OutputGone;
      NextInv(Model(), OutputGoes(i));
      var name := outputs[i].name;
      var first := name.Some? && desks[FIRST].selected == name;
      var beside := name.Some? && desks[BESIDE].selected == name;
      outputs := outputs[..i] + outputs[i + 1..];
      if first {
        Gone(FIRST);
      }
      if beside {
        Gone(BESIDE);
      }
    }

    /** A frame has arrived. */
    method TakeFrame(desk: Desk, w: nat, h: nat)
      requires Valid() && Enabled(Model(), FrameComes(desk, w, h))
      modifies this
      ensures Valid() && Model() == FrameTaken(old(Model()), desk, w, h)
    {
      hide Inv;
      NextInv(Model(), FrameComes(desk, w, h));
      var p := desks[desk].pendingResize;
      if p.Some? && p.value.width == w && p.value.height == h {
        desks := desks[desk := desks[desk].(pendingResize := None)];
      }
    }

    /** A client's SetDesktopSize, where the client is on a desk. */
    method ClientResized(client: ClientId, w: nat, h: nat)
      requires Valid()
      modifies this
      ensures Valid() && Model() == ClientResizes(old(Model()), client, w, h)
    {
      hide Inv, ResizeDesk;
      NextInv(Model(), Resizes(client, w, h));
      var desk := FindDesk(client);
      if desk.Some? {
        Resize(desk.value, client, w, h, false);
      }
    }

    /** An output's properties, as they come in before its `done`. */
    method OutputChanged(o: Output)
      requires Valid()
      modifies this
      ensures Valid() && Model() == old(Model()).(outputs := Replace(old(outputs), o))
    {
      hide Inv;
      NextInv(Model(), OutputSays(o));
      outputs := Replace(outputs, o);
    }

    /** Whatever can happen next leaves a valid compositor, in the state it leads to. */
    method Handle(e: Event)
      requires Valid() && Enabled(Model(), e)
      modifies this
      ensures Valid() && Model() == Next(old(Model()), e)
    {
      hide Valid;
      match e
      case Joins(client) => Joined(client);
      case JoinsBeside(client) => JoinedBeside(client);
      case Leaves(client) => Left(client);
      case Resizes(client, w, h) => ClientResized(client, w, h);
      case Declares(client, w, h, scale) => ClientDeclared(client, w, h, scale);
      case Selects(client, id) => Select(client, id);
      case Answers(config, answer) => Answered(config, answer);
      case Syncs(id) => Synced(id);
      case HeadsChange(changed) => Done(changed);
      case OutputSays(output) => OutputChanged(output);
      case OutputIsDone(output) => OutputIsDone(output);
      case OutputGoes(index) => OutputIsGone(index);
      case FrameComes(desk, w, h) => TakeFrame(desk, w, h);
    }

    /** A run of events, one handled after another. */
    method HandleAll(events: seq<Event>)
      requires Valid() && CanRun(Model(), events)
      modifies this
      ensures Valid() && Model() == Run(old(Model()), events)
    {
      hide Valid, Next, Enabled;
      ghost var was := Model();
      for i := 0 to |events|
        invariant Valid() && CanRun(Model(), events[i..])
        invariant Run(Model(), events[i..]) == Run(was, events)
      {
        assert events[i..][1..] == events[i + 1..];
        Handle(events[i]);
      }
    }
  }

  lemma {:induction false} NamedIsListed(outputs: seq<Output>, name: Name)
    ensures Named(outputs, name).Some? ==> Named(outputs, name).value in outputs
  {
    if outputs != [] && outputs[0].name != Some(name) {
      NamedIsListed(outputs[1..], name);
    }
  }
}
