/** What the compositor's handlers do, in terms of the outputs and the clients themselves
    (src/compositor.rs, src/outputs.rs).
 */
module CompositorLaws {
  import opened Options
  import opened Compositors
  import opened CompositorRuns
  import opened DeclarationFates
  import DeskProofs
  import Proofs = DeclarationProofs

  // ----- the outputs

  /** The output a desk is on: the first listed of the name it selected. */
  predicate IsShared(s: State, desk: Desk, i: nat)
    requires TwoDesks(s) && i < |s.outputs|
  {
    && s.desks[desk].selected.Some? && s.outputs[i].name == s.desks[desk].selected
    && forall j :: 0 <= j < i ==> s.outputs[j].name != s.desks[desk].selected
  }

  /** The compositor has said all there is to say of it, and it has a size. */
  predicate Complete(o: Output) {
    o.done && o.name.Some? && o.width != 0 && o.height != 0
  }

  predicate DifferentIds(outputs: seq<Output>) {
    forall i, j :: 0 <= i < j < |outputs| ==> outputs[i].id != outputs[j].id
  }

  lemma {:induction false} NamedIs(outputs: seq<Output>, name: Name, i: nat)
    requires i < |outputs| && outputs[i].name == Some(name)
    requires forall j :: 0 <= j < i ==> outputs[j].name != Some(name)
    ensures Named(outputs, name) == Some(outputs[i])
  {
    if i > 0 {
      NamedIs(outputs[1..], name, i - 1);
    }
  }

  lemma SharedIsSelected(s: State, desk: Desk, i: nat)
    requires TwoDesks(s) && i < |s.outputs| && IsShared(s, desk, i)
    ensures SelectedOutput(s, desk) == Some(s.outputs[i])
  {
    NamedIs(s.outputs, s.desks[desk].selected.value, i);
  }

  lemma {:induction false} EntryNamedIs(outputs: seq<Output>, name: Name)
    ensures var e := EntryNamed(outputs, name);
            && (e.Some? <==> exists o :: o in outputs && Complete(o) && o.name == Some(name))
            && (e.Some? ==> e.value in outputs && Complete(e.value) && e.value.name == Some(name))
  {
    if outputs != [] {
      EntryNamedIs(outputs[1..], name);
      assert outputs == [outputs[0]] + outputs[1..];
    }
  }

  lemma {:induction false} SelectableIs(outputs: seq<Output>, o: Output)
    requires o in outputs && DifferentIds(outputs)
    ensures Selectable(outputs, o.id) == if Complete(o) then Some(o) else None
  {
    if outputs[0] != o {
      assert outputs == [outputs[0]] + outputs[1..];
      var i :| 0 < i < |outputs| && outputs[i] == o;
      assert outputs[0].id != o.id;
      SelectableIs(outputs[1..], o);
    }
  }

  lemma {:induction false} NotSelectable(outputs: seq<Output>, id: nat)
    requires forall o :: o in outputs ==> o.id != id
    ensures Selectable(outputs, id).None?
  {
    if outputs != [] {
      NotSelectable(outputs[1..], id);
    }
  }

  // ----- where the desks go

  /** The desktop on another output: its resize is dropped, and a display beside ends where that
      was its output, and stays otherwise. */
  lemma SharingMoves(s: State, name: Name)
    requires DeskProofs.Desks(s)
    ensures var t := ShareOutput(s, FIRST, name);
            && t.desks[FIRST] == s.desks[FIRST].(pendingResize := None, selected := Some(name))
            && (s.desks[BESIDE].selected == Some(name) ==> t.desks[BESIDE] == DeskState(None, None, None, None))
            && (s.desks[BESIDE].selected != Some(name) ==> t.desks[BESIDE] == s.desks[BESIDE] && t.seats == s.seats)
            && t.outputs == s.outputs
  {
    DeskProofs.EndBesideDesks(s);
    hide EndBeside;
  }

  /** The client on the desktop moves it to an output it names, where that can be shared; nobody
      else does, and to no other. */
  lemma SelectingMoves(s: State, client: ClientId, id: nat)
    requires DeskProofs.Desks(s) && DifferentIds(s.outputs)
    ensures var t := SelectOutput(s, client, id);
            && (s.desks[FIRST].client == Some(client) ==>
                  forall o :: o in s.outputs && o.id == id && Complete(o) ==> t.desks[FIRST].selected == o.name)
            && (s.desks[FIRST].client != Some(client) ==> t == s)
            && ((forall o :: o in s.outputs && o.id == id ==> !Complete(o)) ==> t == s)
            && ((exists o :: o in s.outputs && o.id == id && o.name == s.desks[FIRST].selected) ==> t == s)
  {
    forall o | o in s.outputs && o.id == id
      ensures Selectable(s.outputs, id) == if Complete(o) then Some(o) else None
    {
      SelectableIs(s.outputs, o);
    }
    if forall o :: o in s.outputs ==> o.id != id {
      NotSelectable(s.outputs, id);
    }
    if Selectable(s.outputs, id).Some? {
      SharingMoves(s, Selectable(s.outputs, id).value.name.GetOr(0));
    }
    hide ShareOutput, Selectable, DeskProofs.Desks;
  }

  /** The desktop is put on the configured output where that can be shared, and on the first that
      can by name where it cannot; with none it stays as it is. */
  lemma AdoptingPrefers(s: State)
    requires DeskProofs.Desks(s) && DifferentIds(s.outputs)
    ensures var t := AdoptOutput(s);
            var configured := s.wanted.Some? && exists o :: o in s.outputs && Complete(o) && o.name == s.wanted;
            && (configured ==> t.desks[FIRST].selected == s.wanted)
            && (!configured ==>
                  forall o :: o in s.outputs && Complete(o) ==>
                    && t.desks[FIRST].selected.Some? && t.desks[FIRST].selected.value <= o.name.value
                    && exists e :: e in s.outputs && Complete(e) && e.name == t.desks[FIRST].selected)
            && ((forall o :: o in s.outputs ==> !Complete(o)) ==> t == s)
  {
    if s.wanted.Some? {
      EntryNamedIs(s.outputs, s.wanted.value);
    }
    DeskProofs.FirstEntryIsAnother(s.outputs, None);
    var named := if s.wanted.Some? then EntryNamed(s.outputs, s.wanted.value) else None;
    var entry := if named.Some? then named else FirstEntry(s.outputs, None);
    if entry.Some? {
      SelectableIs(s.outputs, entry.value);
      SharingMoves(s, entry.value.name.GetOr(0));
    }
    hide ShareOutput, Selectable, FirstEntry, EntryNamed, DeskProofs.Desks;
  }

  /** The desktop's own output gone: it is put where it belongs, or on none; and the display
      beside's own gone, that ends. */
  lemma GoneMoves(s: State)
    requires DeskProofs.Desks(s)
    ensures OutputGone(s, FIRST) == AdoptOutput(s.(desks := s.desks[FIRST := s.desks[FIRST].(selected := None)]))
    ensures OutputGone(s, BESIDE).desks[BESIDE] == DeskState(None, None, None, None)
    ensures OutputGone(s, BESIDE).desks[FIRST] == s.desks[FIRST]
  {
    DeskProofs.EndBesideDesks(s);
    hide AdoptOutput, EndBeside;
  }

  /** An output done for the first time or again: the desktop is put where it belongs when it is
      on none, or when the configured output is the one, is new, and the desktop is not there;
      otherwise it stays. */
  lemma DoneMoves(s: State, o: Output)
    requires TwoDesks(s)
    ensures var t := s.(outputs := Replace(s.outputs, o));
            var appeared := forall p :: p in s.outputs && p.id == o.id ==> !p.done;
            OutputDone(s, o)
            == if s.desks[FIRST].selected.None?
                  || (appeared && o.name.Some? && s.wanted == o.name && s.desks[FIRST].selected != o.name)
               then AdoptOutput(t) else t
  {
    var some := exists i :: 0 <= i < |s.outputs| && s.outputs[i].id == o.id && s.outputs[i].done;
    assert some <==> exists p :: p in s.outputs && p.id == o.id && p.done by {
      if p :| p in s.outputs && p.id == o.id && p.done {
        var i :| 0 <= i < |s.outputs| && s.outputs[i] == p;
      }
    }
    hide AdoptOutput, Replace;
  }

  /** What the compositor says of an output takes the place of what it said before, or is listed
      last; and the rest stay as and where they are. */
  lemma {:induction false} SaidIsListed(outputs: seq<Output>, o: Output)
    ensures var listed := Replace(outputs, o);
            && o in listed
            && (forall i :: 0 <= i < |outputs| && outputs[i].id != o.id ==> i < |listed| && listed[i] == outputs[i])
            && |listed| == (if exists i :: 0 <= i < |outputs| && outputs[i].id == o.id then |outputs|
                            else |outputs| + 1)
            && (DifferentIds(outputs) ==> DifferentIds(listed) && forall p :: p in listed && p.id == o.id ==> p == o)
  {
    if outputs == [] {
    } else if outputs[0].id == o.id {
      assert Replace(outputs, o) == outputs[0 := o];
    } else {
      var rest := Replace(outputs[1..], o);
      SaidIsListed(outputs[1..], o);
      assert Replace(outputs, o) == [outputs[0]] + rest;
      assert forall i :: 1 <= i < |outputs| ==> outputs[i] == outputs[1..][i - 1];
      assert rest[|rest| - 1] in rest;
      if DifferentIds(outputs) {
        OthersListed(outputs[1..], o);
        forall p | p in rest ensures p.id != outputs[0].id {
          if p != o {
            var i :| 0 <= i < |outputs[1..]| && outputs[1..][i] == p;
            assert outputs[i + 1] == p;
          }
        }
      }
    }
  }

  lemma {:induction false} OthersListed(outputs: seq<Output>, o: Output)
    ensures forall p :: p in Replace(outputs, o) ==> p == o || p in outputs
  {
    if outputs != [] {
      OthersListed(outputs[1..], o);
    }
  }

  /** An output unplugged is listed no more; a desk that was on it moves on or ends, and one that
      was not stays. */
  lemma RemovingMoves(s: State, i: nat)
    requires DeskProofs.Desks(s) && i < |s.outputs|
    ensures var (t, gone) := (OutputRemoved(s, i), s.outputs[i].name);
            var left := s.(outputs := s.outputs[..i] + s.outputs[i + 1..]);
            && t.outputs == left.outputs
            && ((gone.None? || (s.desks[FIRST].selected != gone && s.desks[BESIDE].selected != gone)) ==> t == left)
            && (gone.Some? && s.desks[BESIDE].selected == gone ==>
                  t.desks[BESIDE] == DeskState(None, None, None, None) && t.desks[FIRST] == s.desks[FIRST])
            && (gone.Some? && s.desks[FIRST].selected == gone ==>
                  t == AdoptOutput(left.(desks := left.desks[FIRST := left.desks[FIRST].(selected := None)])))
  {
    var left := s.(outputs := s.outputs[..i] + s.outputs[i + 1..]);
    DeskProofs.EndBesideDesks(left);
    AdoptingOutputs(WithDesk(left, FIRST, left.desks[FIRST].(selected := None)));
    EndingOutputs(left);
    hide AdoptOutput, EndBeside;
  }

  lemma EndingOutputs(s: State)
    requires TwoDesks(s)
    ensures EndBeside(s).outputs == s.outputs
  {}

  lemma AdoptingOutputs(s: State)
    requires TwoDesks(s)
    ensures AdoptOutput(s).outputs == s.outputs
  {
    EndingOutputs(s);
    hide EndBeside, FirstEntry, EntryNamed, Selectable;
  }

  /** A connection is seated beside exactly when it is newer than all that has ended there, there
      is a client on the desktop that is no newer, and there is an output to share that the
      desktop is not on; it is then on the first of those by name. */
  lemma SeatedBesideWhen(s: State, client: ClientId)
    requires Inv(s) && Enabled(s, JoinsBeside(client)) && DifferentIds(s.outputs)
    ensures var t := JoinBeside(s, client);
            var another := exists o :: o in s.outputs && Complete(o) && o.name != s.desks[FIRST].selected;
            && (t.desks[BESIDE].client == Some(client) <==>
                  && s.seats.besideEnded < client && another
                  && s.desks[FIRST].client.Some? && s.desks[FIRST].client.value <= client)
            && (t.desks[BESIDE].client == Some(client) ==>
                  && t.desks[BESIDE].selected.Some? && t.seats.beside == client
                  && (exists e :: e in s.outputs && Complete(e) && e.name == t.desks[BESIDE].selected)
                  && forall o :: o in s.outputs && Complete(o) && o.name != s.desks[FIRST].selected ==>
                       t.desks[BESIDE].selected.value <= o.name.value)
  {
    DeskProofs.EndBesideDesks(s);
    var t := EndBeside(s);
    DeskProofs.FirstEntryIsAnother(s.outputs, s.desks[FIRST].selected);
    var entry := FirstEntry(s.outputs, s.desks[FIRST].selected);
    if entry.Some? {
      SelectableIs(s.outputs, entry.value);
    }
    assert t.outputs == s.outputs && t.desks[FIRST] == s.desks[FIRST];
    hide EndBeside, FirstEntry, Selectable, Proofs.Inv, DifferentIds;
  }

  // ----- resizes

  /** A resize asked for is pending, and its configuration out, exactly when it has a size and the
      desk's output can be given one; and otherwise nothing is sent and nothing pending. */
  lemma ResizingConfigures(s: State, desk: Desk, client: ClientId, w: nat, h: nat, retry: bool, i: nat)
    requires TwoDesks(s) && i < |s.outputs| && IsShared(s, desk, i)
    ensures var t := ResizeDesk(s, desk, client, w, h, retry);
            var able := s.manager && s.outputs[i].headless;
            && (w == 0 || h == 0 ==> t == s)
            && (w > 0 && h > 0 && able ==>
                  && t.desks[desk].pendingResize == Some(Resize(client, w, h))
                  && t.configs == s.configs[s.nextConfig := ForResize(client, w, h, retry)]
                  && t.nextConfig == s.nextConfig + 1)
            && (w > 0 && h > 0 && !able ==> t.desks[desk].pendingResize.None? && t.configs == s.configs)
            && t.ledger == s.ledger && t.declaring == s.declaring
  {
    SharedIsSelected(s, desk, i);
    hide SelectedOutput, IsShared;
  }

  /** A frame ends the resize of its own size, and no other. */
  lemma FrameEndsItsResize(s: State, desk: Desk, w: nat, h: nat, r: Resize)
    requires TwoDesks(s) && s.desks[desk].pendingResize == Some(r)
    ensures FrameTaken(s, desk, w, h).desks[desk].pendingResize
         == if r.width == w && r.height == h then None else Some(r)
  {}

  // ----- declarations

  /** The output is as a declaration wants it. */
  predicate AsDeclared(o: Output, d: Waiting) {
    o.width == d.width && o.height == d.height && -0.005 < o.scale - d.scale < 0.005
  }

  function Sent(line: Line): Line {
    line.(status := Out, configured := line.configured + 1)
  }

  function Told(line: Line): Line {
    line.(status := Settled, answered := line.answered + 1)
  }

  /** A declaration's configuration out, and nothing else: exactly one more, that carries what was
      declared. */
  predicate IsConfigured(s: State, t: State, desk: Desk, d: Waiting, retry: bool, resizes: bool)
    requires TwoDesks(s) && TwoDesks(t) && d.number in s.ledger
  {
    && t.configs
       == s.configs[s.nextConfig := ForDeclare(s.nextDeclaration, d.client, d.width, d.height, d.scale, retry)]
    && t.nextConfig == s.nextConfig + 1
    && t.declaring == Some(Declaring(s.nextDeclaration, desk, d.number))
    && t.ledger == s.ledger[d.number := Sent(s.ledger[d.number])]
    && t.desks[desk].pendingResize == (if resizes then Some(Resize(d.client, d.width, d.height)) else None)
  }

  /** A declaration answered with the output as it is, and nothing sent. */
  predicate IsAnswered(s: State, t: State, d: Waiting)
    requires d.number in s.ledger
  {
    && t.configs == s.configs && t.declaring.None?
    && t.ledger == s.ledger[d.number := Told(s.ledger[d.number])]
  }

  /** With none out, on an output that can be reconfigured, a declaration is answered at once if
      and only if the output is as it wants it, and otherwise configured. */
  lemma DeclaredIsConfiguredUnlessTheSame(s: State, desk: Desk, d: Waiting, retry: bool, i: nat)
    requires TwoDesks(s) && s.declaring.None? && d.number in s.ledger
    requires i < |s.outputs| && IsShared(s, desk, i) && s.manager && s.outputs[i].headless
    ensures var (o, t) := (s.outputs[i], Declare(s, desk, d, retry));
            && (AsDeclared(o, d) ==> IsAnswered(s, t, d))
            && (!AsDeclared(o, d) ==>
                  IsConfigured(s, t, desk, d, retry, o.width != d.width || o.height != d.height))
  {
    SharedIsSelected(s, desk, i);
    hide SelectedOutput, IsShared;
  }

  /** And where it cannot be, or there is none, it is answered at once. */
  lemma DeclaredInVainIsAnswered(s: State, desk: Desk, d: Waiting, retry: bool)
    requires TwoDesks(s) && s.declaring.None? && d.number in s.ledger
    requires !s.manager || s.desks[desk].selected.None?
             || forall o :: o in s.outputs && o.name == s.desks[desk].selected ==> !o.headless
    ensures IsAnswered(s, Declare(s, desk, d, retry), d)
  {
    if s.desks[desk].selected.Some? {
      NamedIn(s.outputs, s.desks[desk].selected.value);
    }
    hide NewScale, NewSize, Named;
  }

  lemma {:induction false} NamedIn(outputs: seq<Output>, name: Name)
    ensures var o := Named(outputs, name); o.Some? ==> o.value in outputs && o.value.name == Some(name)
  {
    if outputs != [] {
      NamedIn(outputs[1..], name);
    }
  }

  /** The same of one that waited, once none is out and its client is still there. */
  lemma WaitedIsConfiguredUnlessTheSame(s: State, desk: Desk, i: nat)
    requires TwoDesks(s) && Proofs.Core(s, {}) && s.declaring.None? && s.desks[desk].queued.Some?
    requires s.desks[desk].client == Some(s.desks[desk].queued.value.client)
    requires i < |s.outputs| && IsShared(s, desk, i) && s.manager && s.outputs[i].headless
    ensures var (d, o, t) := (s.desks[desk].queued.value, s.outputs[i], RunQueued(s, desk));
            && d.number in s.ledger && t.desks[desk].queued.None?
            && (AsDeclared(o, d) ==> IsAnswered(s, t, d))
            && (!AsDeclared(o, d) ==>
                  IsConfigured(s, t, desk, d, false, o.width != d.width || o.height != d.height))
  {
    var d := s.desks[desk].queued.value;
    var u := WithDesk(s, desk, s.desks[desk].(queued := None));
    Proofs.QueueKnown(s, desk);
    hide Proofs.Core;
    assert IsShared(u, desk, i);
    DeclaredIsConfiguredUnlessTheSame(u, desk, d, false, i);
    DeclareQueues(u, desk, d);
    hide Declare, IsShared;
  }

  lemma DeclareQueues(s: State, desk: Desk, d: Waiting)
    requires TwoDesks(s) && s.declaring.None?
    ensures Declare(s, desk, d, false).desks[desk].queued == s.desks[desk].queued
  {
    hide NewScale, NewSize, CanConfigure;
  }

  /** And of one asked again after the layout changed under it, once. */
  lemma AskedAgainIsConfiguredUnlessTheSame(s: State, kind: ConfigKind, i: nat)
    requires TwoDesks(s) && Proofs.CoreBut(s) && kind.ForDeclare? && IsOut(s, kind.id)
    requires Proofs.ConfigFits(s, kind) && !kind.retry
    requires var desk := s.declaring.value.desk;
             && s.desks[desk].client == Some(kind.client)
             && i < |s.outputs| && IsShared(s, desk, i) && s.manager && s.outputs[i].headless
    ensures var (out, t) := (s.declaring.value, AskedAgain(s, kind));
            var (o, d) := (s.outputs[i], Waiting(kind.client, kind.width, kind.height, kind.scale, out.number));
            && d.number in s.ledger
            && (AsDeclared(o, d) ==> Was(t, d.number, Settled) && t.ledger[d.number].configured == 1)
            && (!AsDeclared(o, d) ==>
                  IsConfigured(s, t, out.desk, d, true, o.width != d.width || o.height != d.height))
  {
    var out := s.declaring.value;
    var d := Waiting(kind.client, kind.width, kind.height, kind.scale, out.number);
    var t := WithoutResize(s.(declaring := None), out.desk);
    OutIsOut(s);
    Proofs.OutWithdrawn(s);
    assert IsShared(t, out.desk, i) && d.number in s.ledger;
    hide Proofs.Core, Proofs.CoreBut, DeclarationSettled, IsShared, Fate, IsConfigured, IsAnswered, AsDeclared;
    DeclaredIsConfiguredUnlessTheSame(t, out.desk, d, true, i);
    AgainFate(t, out.desk, d);
    var again := Declare(t, out.desk, d, true);
    hide Declare;
    if AsDeclared(s.outputs[i], d) {
      AnsweredWas(t, again, d);
      SettledFate(again);
      KeptSettled(again, DeclarationSettled(again), d.number);
    } else {
      ConfiguredFrom(s, again, out.desk, d, s.outputs[i].width != d.width || s.outputs[i].height != d.height);
    }
  }

  lemma AnsweredWas(s: State, t: State, d: Waiting)
    requires d.number in s.ledger && IsAnswered(s, t, d)
    ensures Was(t, d.number, Settled) && t.ledger[d.number].configured == s.ledger[d.number].configured
  {}

  /** What was withdrawn makes no difference to what is sent, and nothing runs behind it. */
  lemma ConfiguredFrom(s: State, again: State, desk: Desk, d: Waiting, resizes: bool)
    requires TwoDesks(s) && d.number in s.ledger && TwoDesks(again)
    requires IsConfigured(WithoutResize(s.(declaring := None), desk), again, desk, d, true, resizes)
    ensures IsConfigured(s, again, desk, d, true, resizes) && DeclarationSettled(again) == again
  {}

  lemma KeptSettled(s: State, t: State, n: nat)
    requires Fate(s, t) && Was(s, n, Settled)
    ensures Was(t, n, Settled) && t.ledger[n] == s.ledger[n]
  {
    assert Kept(s.ledger[n], t.ledger[n]);
  }

  // ----- answers

  /** What the compositor's answer does to what is out: a success waits for the round trip, a
      failure or a second cancellation settles it, and one that is not for what is out changes
      nothing. */
  lemma AnswersSettle(s: State, config: nat, answer: Answer)
    requires Proofs.Inv(s) && config in s.configs && s.configs[config].ForDeclare?
    ensures var (kind, t) := (s.configs[config], ConfigAnswered(s, config, answer));
            var forgotten := s.(configs := s.configs - {config});
            var isOut := s.declaring.Some? && s.declaring.value.id == kind.id;
            && (!isOut ==> t == forgotten)
            && (isOut && answer == Success ==> t == forgotten.(syncs := s.syncs + {kind.id}))
            && (isOut && (answer == Failure || (answer == Cancellation && kind.retry)) ==>
                  Was(t, s.declaring.value.number, Settled))
  {
    var kind := s.configs[config];
    var t := Forgotten(s, config);
    Proofs.ForgottenBut(s, config);
    hide Proofs.Core, Proofs.CoreBut, Proofs.Inv, DeclarationSettled, Declare, Fate;
    if IsOut(t, kind.id) && (answer == Failure || (answer == Cancellation && kind.retry)) {
      RefusedSettles(t, kind);
    }
  }

  lemma RefusedSettles(s: State, kind: ConfigKind)
    requires TwoDesks(s) && Proofs.CoreBut(s) && kind.ForDeclare? && IsOut(s, kind.id)
    ensures Was(ConfigRefused(s, kind), s.declaring.value.number, Settled)
  {
    var out := s.declaring.value;
    var t := WithoutResize(s, out.desk);
    OutIsOut(s);
    Proofs.OutWithdrawn(s);
    Proofs.OutTakenBut(s);
    hide Proofs.Core, Proofs.CoreBut, DeclarationSettled, Fate;
    var u := WithoutResize(s.(declaring := None), out.desk);
    Proofs.MarkedFinal(u, out.number, Settled);
    assert SettleOut(t) == Marked(u, out.number, Settled);
    OutSettledFate(t);
  }

  /** The same of a resize: refused, its desk waits for no frame; cancelled the first time, it is
      asked for once more where its client still is. */
  lemma AnswersEndResizes(s: State, config: nat, answer: Answer, i: nat)
    requires TwoDesks(s) && config in s.configs && s.configs[config].ForResize?
    ensures var (kind, t) := (s.configs[config], ConfigAnswered(s, config, answer));
            var forgotten := s.(configs := s.configs - {config});
            && (answer == Success || DeskOf(s, kind.client).None? ==> t == forgotten)
            && (DeskOf(s, kind.client).Some? && (answer == Failure || (answer == Cancellation && kind.retry)) ==>
                  t == WithoutResize(forgotten, DeskOf(s, kind.client).value))
            && (DeskOf(s, kind.client).Some? && answer == Cancellation && !kind.retry
                && kind.width > 0 && kind.height > 0 ==>
                  var desk := DeskOf(s, kind.client).value;
                  i < |s.outputs| && IsShared(s, desk, i) && s.manager && s.outputs[i].headless ==>
                    && t.desks[desk].pendingResize == Some(Resize(kind.client, kind.width, kind.height))
                    && t.configs
                       == forgotten.configs[s.nextConfig := ForResize(kind.client, kind.width, kind.height, true)])
  {
    var kind := s.configs[config];
    if DeskOf(s, kind.client).Some? {
      var desk := DeskOf(s, kind.client).value;
      if i < |s.outputs| && IsShared(s, desk, i) {
        var t := WithoutResize(Forgotten(s, config), desk);
        assert IsShared(t, desk, i);
        hide ResizeDesk, IsShared;
        ResizingConfigures(t, desk, kind.client, kind.width, kind.height, true, i);
      }
    }
    hide ResizeDesk, IsShared;
  }

  /** A round trip's end settles what it was for, and nothing else. */
  lemma RoundTripSettles(s: State, id: nat)
    requires Proofs.Inv(s)
    ensures var t := SyncDone(s, id);
            && (s.declaring.Some? && s.declaring.value.id == id ==> Was(t, s.declaring.value.number, Settled))
            && (s.declaring.None? || s.declaring.value.id != id ==> t == s.(syncs := s.syncs - {id}))
  {
    var t := s.(syncs := s.syncs - {id});
    Proofs.SyncForgotten(s, id);
    if IsOut(t, id) {
      OutIsOut(t);
      Proofs.OutTakenBut(t);
      hide Proofs.Core, Proofs.CoreBut, DeclarationSettled, Fate;
      var n := t.declaring.value.number;
      Proofs.MarkedFinal(t.(declaring := None), n, Settled);
      assert SettleOut(t) == Marked(t.(declaring := None), n, Settled);
      OutSettledFate(t);
    }
  }

  /** A head among those changed is a desk's. */
  predicate Changes(s: State, changed: seq<Option<Name>>, desk: Desk)
    requires TwoDesks(s)
  {
    exists k :: 0 <= k < |changed| && changed[k].Some? && changed[k] == s.desks[desk].selected
  }

  /** Heads changed settle what is out if one is its desk's, and change nothing otherwise. */
  lemma {:induction false} HeadsSettle(s: State, changed: seq<Option<Name>>)
    requires Proofs.Inv(s) && s.declaring.Some?
    ensures var t := ManagerDone(s, changed);
            && (Changes(s, changed, s.declaring.value.desk) ==> Was(t, s.declaring.value.number, Settled))
            && (!Changes(s, changed, s.declaring.value.desk) ==> t == s)
    decreases |changed|
  {
    if changed != [] {
      var (before, name) := (changed[..|changed| - 1], changed[|changed| - 1]);
      var (t, out) := (ManagerDone(s, before), s.declaring.value);
      HeadsSettle(s, before);
      ManagerFate(s, before);
      Proofs.ManagerInv(s, before);
      assert Changes(s, changed, out.desk) <==> Changes(s, before, out.desk) || IsOn(s, out.desk, name) by {
        assert changed == before + [name];
        if IsOn(s, out.desk, name) {
          assert changed[|changed| - 1] == s.desks[out.desk].selected;
        }
        if k :| 0 <= k < |before| && before[k].Some? && before[k] == s.desks[out.desk].selected {
          assert changed[k] == before[k];
        }
      }
      hide ManagerDone, Proofs.Inv, Fate, Changes, ScaleChanged;
      if Changes(s, before, out.desk) {
        ChangeKeepsSettled(t, name, out.number);
      } else {
        ChangeSettles(s, name);
      }
      assert ManagerDone(s, changed) == ScaleChanged(t, name) by { ManagerStep(s, changed); }
    }
  }

  lemma ManagerStep(s: State, changed: seq<Option<Name>>)
    requires TwoDesks(s) && changed != []
    ensures ManagerDone(s, changed) == ScaleChanged(ManagerDone(s, changed[..|changed| - 1]), changed[|changed| - 1])
  {}

  lemma ChangeKeepsSettled(s: State, name: Option<Name>, n: nat)
    requires Proofs.Inv(s) && Was(s, n, Settled)
    ensures Was(ScaleChanged(s, name), n, Settled)
  {
    var t := if IsOn(s, FIRST, name) then ScaleChangedOn(s, FIRST) else s;
    ChangedOnFate(s, FIRST);
    Proofs.ChangedOnInv(s, FIRST);
    ChangedOnFate(t, BESIDE);
    hide Proofs.Inv, ScaleChangedOn, Fate;
    if IsOn(s, FIRST, name) {
      KeptSettled(s, t, n);
    }
    if IsOn(s, BESIDE, name) {
      KeptSettled(t, ScaleChangedOn(t, BESIDE), n);
    }
  }

  lemma ChangeSettles(s: State, name: Option<Name>)
    requires Proofs.Inv(s) && s.declaring.Some?
    ensures var (t, out) := (ScaleChanged(s, name), s.declaring.value);
            && (IsOn(s, out.desk, name) ==> Was(t, out.number, Settled))
            && (!IsOn(s, out.desk, name) ==> t == s)
  {
    var out := s.declaring.value;
    var t := ScaleChangedOn(s, out.desk);
    ChangedOnSettles(s);
    hide Proofs.Inv, DeclarationSettled, SettleOut, Fate;
    if IsOn(s, out.desk, name) && out.desk == FIRST && IsOn(s, BESIDE, name) {
      Proofs.ChangedOnInv(s, FIRST);
      ChangedOnFate(t, BESIDE);
      KeptSettled(t, ScaleChangedOn(t, BESIDE), out.number);
    }
  }

  lemma ChangedOnSettles(s: State)
    requires Proofs.Inv(s) && s.declaring.Some?
    ensures Was(ScaleChangedOn(s, s.declaring.value.desk), s.declaring.value.number, Settled)
  {
    CoreIsCoreBut(s);
    OutIsOut(s);
    Proofs.SettleOutCore(s);
    hide Proofs.Core, DeclarationSettled, SettleOut, Fate;
    OutSettledFate(s);
  }
}
