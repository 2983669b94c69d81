/** What a declaration's end may be, over every run (src/compositor.rs, src/outputs.rs): one
    that has ended stays ended, one is dropped only with its client off its desk, and one is
    replaced only by a newer of the same client there.
 */
module DeclarationFates {
  import opened Options
  import opened Compositors
  import opened CompositorRuns
  import DeskProofs
  import Proofs = DeclarationProofs

  /** A newer declaration of the same client, on the same desk. */
  ghost predicate HasLater(s: State, n: nat)
    requires n in s.ledger
  {
    exists m :: m in s.ledger && m > n && s.ledger[m].client == s.ledger[n].client
                && s.ledger[m].desk == s.ledger[n].desk
  }

  /** A declaration's client is not on the desk it was for. */
  predicate OffDesk(s: State, line: Line)
    requires TwoDesks(s)
  {
    s.desks[line.desk].client != Some(line.client)
  }

  predicate Was(s: State, n: nat, status: Status) {
    n in s.ledger && s.ledger[n].status == status
  }

  /** A line is its declaration's for good, and stays as it is once the declaration has ended. */
  ghost predicate Kept(a: Line, b: Line) {
    b.client == a.client && b.desk == a.desk && (Proofs.Final(a.status) ==> b == a)
  }

  /** What may become of the declarations from one state to the next. */
  ghost predicate Fate(s: State, t: State) {
    && TwoDesks(s) && TwoDesks(t)
    && (forall n :: n in s.ledger ==> n in t.ledger && Kept(s.ledger[n], t.ledger[n]))
    && (forall n :: n in t.ledger && t.ledger[n].status == Dropped ==>
          Was(s, n, Dropped) || OffDesk(t, t.ledger[n]))
    && (forall n :: n in t.ledger && t.ledger[n].status == Replaced ==>
          Was(s, n, Replaced) || HasLater(t, n))
  }

  /** Nobody is on a desk that was not there before. */
  predicate NoArrivals(s: State, t: State)
    requires TwoDesks(s) && TwoDesks(t)
  {
    forall d: Desk :: t.desks[d].client.Some? ==> t.desks[d].client == s.desks[d].client
  }

  lemma FateTwice(s: State, t: State, u: State)
    requires Fate(s, t) && Fate(t, u) && NoArrivals(t, u)
    ensures Fate(s, u)
  {
    forall n | n in s.ledger ensures n in u.ledger && Kept(s.ledger[n], u.ledger[n]) {
      assert n in t.ledger && Kept(s.ledger[n], t.ledger[n]) && Kept(t.ledger[n], u.ledger[n]);
    }
    forall n | n in u.ledger && u.ledger[n].status == Dropped
      ensures Was(s, n, Dropped) || OffDesk(u, u.ledger[n])
    {
      if Was(t, n, Dropped) {
        assert Kept(t.ledger[n], u.ledger[n]);
      }
    }
    forall n | n in u.ledger && u.ledger[n].status == Replaced ensures Was(s, n, Replaced) || HasLater(u, n) {
      if Was(t, n, Replaced) && !Was(s, n, Replaced) {
        assert HasLater(t, n) && Kept(t.ledger[n], u.ledger[n]);
        LaterStays(t, u, n);
      }
    }
  }

  lemma LaterStays(t: State, u: State, n: nat)
    requires n in t.ledger && HasLater(t, n)
    requires forall m :: m in t.ledger ==> m in u.ledger && Kept(t.ledger[m], u.ledger[m])
    ensures HasLater(u, n)
  {
    var m :| m in t.ledger && m > n && t.ledger[m].client == t.ledger[n].client && t.ledger[m].desk == t.ledger[n].desk;
    assert Kept(t.ledger[m], u.ledger[m]) && Kept(t.ledger[n], u.ledger[n]);
  }

  lemma SameLedger(s: State, t: State)
    requires TwoDesks(s) && TwoDesks(t) && t.ledger == s.ledger
    ensures Fate(s, t)
  {}

  /** A declaration that has not ended marked. */
  lemma MarkedFate(s: State, n: nat, status: Status)
    requires TwoDesks(s) && n in s.ledger && !Proofs.Final(s.ledger[n].status)
    requires status == Dropped ==> OffDesk(s, s.ledger[n])
    requires status == Replaced ==> HasLater(s, n)
    ensures Fate(s, Marked(s, n, status))
    ensures Was(Marked(s, n, status), n, status) && Marked(s, n, status).desks == s.desks
  {
    var t := Marked(s, n, status);
    if status == Replaced {
      LaterStays(s, t, n);
    }
  }

  // ----- one declared

  /** Queued: the one that waited before it is answered, and is an older one of its client's. */
  lemma QueueFate(s: State, desk: Desk, d: Waiting)
    requires TwoDesks(s) && Proofs.Core(s, {d.number}) && d.number in s.ledger
    requires s.ledger[d.number].client == d.client && s.ledger[d.number].desk == desk
    requires s.desks[desk].client == Some(d.client) && DeskProofs.OwnRequests(s.desks[desk])
    requires s.desks[desk].queued.Some? ==> s.desks[desk].queued.value.number < d.number
    ensures var t := Queue(s, desk, d);
            && Fate(s, t) && Was(t, d.number, Queued)
            && (s.desks[desk].queued.Some? ==>
                  Was(t, s.desks[desk].queued.value.number, Replaced)
                  && t.ledger[s.desks[desk].queued.value.number].answered == 1)
  {
    var before := s.desks[desk].queued;
    var t := WithDesk(s, desk, s.desks[desk].(queued := Some(d)));
    SameLedger(s, t);
    if before.Some? {
      var earlier := before.value.number;
      assert Proofs.Waits(s, earlier);
      assert Proofs.LineFits(s, earlier) && Proofs.QueueFits(s, desk);
      assert t.ledger[d.number].client == t.ledger[earlier].client && t.ledger[d.number].desk == t.ledger[earlier].desk;
      assert HasLater(t, earlier);
      hide Proofs.Core;
      MarkedFate(t, earlier, Replaced);
      var u := Marked(t, earlier, Replaced);
      MarkedFate(u, d.number, Queued);
      FateTwice(s, t, u);
      FateTwice(s, u, Marked(u, d.number, Queued));
    } else {
      hide Proofs.Core;
      MarkedFate(t, d.number, Queued);
      FateTwice(s, t, Marked(t, d.number, Queued));
    }
  }

  /** Configured: answered at once, or out. */
  lemma ConfigureFate(s: State, desk: Desk, d: Waiting, retry: bool)
    requires TwoDesks(s) && d.number in s.ledger && !Proofs.Final(s.ledger[d.number].status)
    ensures var t := Configure(s, desk, d, retry);
            Fate(s, t) && (Was(t, d.number, Settled) || Was(t, d.number, Out))
  {
    hide NewScale, NewSize, CanConfigure, Marked, ConfiguredOnce;
    var (n, t) := (d.number, Configure(s, desk, d, retry));
    if !NewScale(s, desk, d.scale) && !NewSize(s, desk, d.width, d.height) {
      MarkedFate(s, n, Settled);
    } else if !CanConfigure(s, desk) {
      var u := WithDesk(s, desk, s.desks[desk].(pendingResize := None)).(nextDeclaration := s.nextDeclaration + 1);
      SameLedger(s, u);
      MarkedFate(u, n, Settled);
      FateTwice(s, u, Marked(u, n, Settled));
    } else {
      OnlyOut(s, t, n);
      ConfiguredOut(s, desk, d, retry);
    }
  }

  /** One line changes, of a declaration that has not ended, to say that it is out. */
  lemma OnlyOut(s: State, t: State, n: nat)
    requires TwoDesks(s) && TwoDesks(t) && n in s.ledger && !Proofs.Final(s.ledger[n].status)
    ensures var line := s.ledger[n];
            t.ledger == s.ledger[n := line.(status := Out, configured := line.configured + 1)] ==> Fate(s, t)
  {}

  lemma ConfiguredOut(s: State, desk: Desk, d: Waiting, retry: bool)
    requires TwoDesks(s) && d.number in s.ledger && CanConfigure(s, desk)
    requires NewScale(s, desk, d.scale) || NewSize(s, desk, d.width, d.height)
    ensures var line := s.ledger[d.number];
            Configure(s, desk, d, retry).ledger
            == s.ledger[d.number := line.(status := Out, configured := line.configured + 1)]
  {
    hide NewScale, NewSize, SelectedOutput;
  }

  lemma DeclareFate(s: State, desk: Desk, d: Waiting, retry: bool)
    requires TwoDesks(s) && Proofs.Core(s, {d.number}) && d.number in s.ledger
    requires s.ledger[d.number].client == d.client && s.ledger[d.number].desk == desk
    requires s.declaring.Some? ==>
               && s.desks[desk].client == Some(d.client) && DeskProofs.OwnRequests(s.desks[desk])
               && (s.desks[desk].queued.Some? ==> s.desks[desk].queued.value.number < d.number)
    ensures Fate(s, Declare(s, desk, d, retry))
  {
    assert !Proofs.Final(s.ledger[d.number].status);
    hide Proofs.Core, Queue, Configure, Fate;
    if s.declaring.Some? {
      QueueFate(s, desk, d);
    } else {
      ConfigureFate(s, desk, d, retry);
    }
  }

  // ----- settling

  lemma RunQueuedFate(s: State, desk: Desk)
    requires TwoDesks(s) && Proofs.Core(s, {})
    ensures Fate(s, RunQueued(s, desk)) && NoArrivals(s, RunQueued(s, desk))
  {
    DeskProofs.RunQueuedRequests(s, desk);
    SameLedger(s, s);
    var waiting := s.desks[desk].queued;
    if s.declaring.None? && waiting.Some? {
      var (d, t) := (waiting.value, WithDesk(s, desk, s.desks[desk].(queued := None)));
      Proofs.QueueKnown(s, desk);
      Proofs.QueuedTaken(s, desk);
      SameLedger(s, t);
      hide Proofs.Core, Declare, Marked, Fate;
      if s.desks[desk].client == Some(d.client) {
        DeclareFate(t, desk, d, false);
        DeskProofs.DeclareRequests(t, desk, d, false);
        FateTwice(s, t, Declare(t, desk, d, false));
      } else {
        MarkedFate(t, d.number, Dropped);
        FateTwice(s, t, Marked(t, d.number, Dropped));
      }
    }
  }

  lemma SettledFate(s: State)
    requires TwoDesks(s) && Proofs.Core(s, {})
    ensures Fate(s, DeclarationSettled(s)) && NoArrivals(s, DeclarationSettled(s))
  {
    hide Proofs.Core, RunQueued, Fate;
    var t := RunQueued(s, FIRST);
    RunQueuedFate(s, FIRST);
    Proofs.RunQueuedCore(s, FIRST);
    RunQueuedFate(t, BESIDE);
    FateTwice(s, t, RunQueued(t, BESIDE));
  }

  /** The declaration out answered, and what waited run. */
  lemma OutSettledFate(s: State)
    requires TwoDesks(s) && s.declaring.Some? && Proofs.Core(SettleOut(s), {})
    requires s.declaring.value.number in s.ledger && s.ledger[s.declaring.value.number].status == Out
    ensures var t := DeclarationSettled(SettleOut(s));
            Fate(s, t) && NoArrivals(s, t) && Was(t, s.declaring.value.number, Settled)
  {
    var n := s.declaring.value.number;
    MarkedFate(s, n, Settled);
    var t := SettleOut(s);
    SameLedger(Marked(s, n, Settled), t);
    FateTwice(s, Marked(s, n, Settled), t);
    assert Was(t, n, Settled);
    hide Proofs.Core, DeclarationSettled, SettleOut, Marked;
    SettledFate(t);
    FateTwice(s, t, DeclarationSettled(t));
    assert Kept(t.ledger[n], DeclarationSettled(t).ledger[n]);
  }

  lemma OutIsOut(s: State)
    requires TwoDesks(s) && Proofs.CoreBut(s) && s.declaring.Some?
    ensures s.declaring.value.number in s.ledger
    ensures var line := s.ledger[s.declaring.value.number]; line.status == Out && line.desk == s.declaring.value.desk
  {
    assert Proofs.LineFits(s, s.declaring.value.number);
  }

  lemma CoreIsCoreBut(s: State)
    requires TwoDesks(s) && Proofs.Core(s, {})
    ensures Proofs.CoreBut(s)
  {}

  lemma ChangedOnFate(s: State, desk: Desk)
    requires Proofs.Inv(s)
    ensures Fate(s, ScaleChangedOn(s, desk)) && NoArrivals(s, ScaleChangedOn(s, desk))
  {
    SameLedger(s, s);
    if s.declaring.Some? && s.declaring.value.desk == desk {
      CoreIsCoreBut(s);
      OutIsOut(s);
      Proofs.SettleOutCore(s);
      hide Proofs.Core, DeclarationSettled, SettleOut;
      OutSettledFate(s);
    }
  }

  lemma {:induction false} ManagerFate(s: State, changed: seq<Option<Name>>)
    requires Proofs.Inv(s)
    ensures Fate(s, ManagerDone(s, changed)) && NoArrivals(s, ManagerDone(s, changed))
    decreases |changed|
  {
    SameLedger(s, s);
    if changed != [] {
      var t := ManagerDone(s, changed[..|changed| - 1]);
      ManagerFate(s, changed[..|changed| - 1]);
      Proofs.ManagerInv(s, changed[..|changed| - 1]);
      hide ManagerDone, Proofs.Inv, ScaleChangedOn, Fate;
      var name := changed[|changed| - 1];
      var u := if IsOn(t, FIRST, name) then ScaleChangedOn(t, FIRST) else t;
      ChangedOnFate(t, FIRST);
      Proofs.ChangedOnInv(t, FIRST);
      ChangedOnFate(u, BESIDE);
      if IsOn(t, FIRST, name) {
        FateTwice(s, t, u);
      }
      FateTwice(s, u, ScaleChangedOn(u, BESIDE));
    }
  }

  /** One asked again: configured or answered, unless its client is off its desk. */
  lemma AskedDeclareFate(s: State, kind: ConfigKind)
    requires TwoDesks(s) && Proofs.CoreBut(s) && kind.ForDeclare? && IsOut(s, kind.id)
    requires Proofs.ConfigFits(s, kind) && !kind.retry
    ensures Fate(s, AskedAgain(s, kind)) && NoArrivals(s, AskedAgain(s, kind))
  {
    var out := s.declaring.value;
    var t := WithoutResize(s.(declaring := None), out.desk);
    OutIsOut(s);
    Proofs.OutWithdrawn(s);
    SameLedger(s, t);
    hide Proofs.Core, Proofs.CoreBut, Declare, DeclarationSettled, Marked, Fate;
    var d := Waiting(kind.client, kind.width, kind.height, kind.scale, out.number);
    var again := if t.desks[out.desk].client == Some(kind.client) then Declare(t, out.desk, d, true)
                 else Marked(t, out.number, Dropped);
    AgainFate(t, out.desk, d);
    SettledFate(again);
    FateTwice(s, t, again);
    FateTwice(s, again, DeclarationSettled(again));
  }

  lemma AgainFate(t: State, desk: Desk, d: Waiting)
    requires TwoDesks(t) && Proofs.Core(t, {d.number}) && t.declaring.None? && d.number in t.ledger
    requires var line := t.ledger[d.number];
             line.client == d.client && line.desk == desk && line.configured == 1
    ensures var again := if t.desks[desk].client == Some(d.client) then Declare(t, desk, d, true)
                         else Marked(t, d.number, Dropped);
            Fate(t, again) && NoArrivals(t, again) && Proofs.Core(again, {})
  {
    assert !Proofs.Final(t.ledger[d.number].status);
    hide Proofs.Core, Declare, Marked, Fate;
    if t.desks[desk].client == Some(d.client) {
      DeclareFate(t, desk, d, true);
      DeskProofs.DeclareRequests(t, desk, d, true);
      Proofs.DeclareCore(t, desk, d, true);
    } else {
      MarkedFate(t, d.number, Dropped);
      Proofs.MarkedFinal(t, d.number, Dropped);
    }
  }

  lemma RefusedDeclareFate(s: State, kind: ConfigKind)
    requires TwoDesks(s) && Proofs.CoreBut(s) && kind.ForDeclare? && IsOut(s, kind.id)
    ensures Fate(s, ConfigRefused(s, kind)) && NoArrivals(s, ConfigRefused(s, kind))
  {
    var out := s.declaring.value;
    var t := WithoutResize(s, out.desk);
    OutIsOut(s);
    Proofs.OutWithdrawn(s);
    Proofs.OutTakenBut(s);
    SameLedger(s, t);
    hide Proofs.Core, Proofs.CoreBut, DeclarationSettled, Fate;
    var u := WithoutResize(s.(declaring := None), out.desk);
    Proofs.MarkedFinal(u, out.number, Settled);
    assert SettleOut(t) == Marked(u, out.number, Settled);
    OutSettledFate(t);
    FateTwice(s, t, DeclarationSettled(SettleOut(t)));
  }

  lemma AnsweredFate(s: State, config: nat, answer: Answer)
    requires Proofs.Inv(s) && config in s.configs
    ensures Fate(s, ConfigAnswered(s, config, answer)) && NoArrivals(s, ConfigAnswered(s, config, answer))
  {
    var kind := s.configs[config];
    var t := Forgotten(s, config);
    Proofs.ForgottenBut(s, config);
    SameLedger(s, t);
    var u := ConfigAnswered(s, config, answer);
    DeskProofs.AnsweredRequests(s, config, answer);
    if kind.ForDeclare? && IsOut(t, kind.id) && answer != Success {
      hide Proofs.Core, Proofs.CoreBut, AskedAgain, ConfigRefused, Fate;
      if answer == Cancellation && !kind.retry {
        AskedDeclareFate(t, kind);
      } else {
        RefusedDeclareFate(t, kind);
      }
      FateTwice(s, t, u);
    } else {
      hide Proofs.Core, Proofs.CoreBut, CanConfigure;
      assert u.ledger == s.ledger;
      SameLedger(s, u);
    }
  }

  lemma SyncFate(s: State, id: nat)
    requires Proofs.Inv(s)
    ensures Fate(s, SyncDone(s, id)) && NoArrivals(s, SyncDone(s, id))
  {
    var t := s.(syncs := s.syncs - {id});
    Proofs.SyncForgotten(s, id);
    SameLedger(s, t);
    if IsOut(t, id) {
      OutIsOut(t);
      Proofs.OutTakenBut(t);
      hide Proofs.Core, Proofs.CoreBut, DeclarationSettled, Fate;
      var n := t.declaring.value.number;
      Proofs.MarkedFinal(t.(declaring := None), n, Settled);
      assert SettleOut(t) == Marked(t.(declaring := None), n, Settled);
      OutSettledFate(t);
      FateTwice(s, t, DeclarationSettled(SettleOut(t)));
    }
  }

  lemma DeclaresFate(s: State, client: ClientId, w: nat, h: nat, scale: real)
    requires Proofs.Inv(s) && DeskProofs.Inv(s)
    ensures Fate(s, ClientDeclares(s, client, w, h, scale)) && NoArrivals(s, ClientDeclares(s, client, w, h, scale))
  {
    SameLedger(s, s);
    DeskProofs.DeclaresRequests(s, client, w, h, scale);
    if DeskOf(s, client).Some? {
      var desk := DeskOf(s, client).value;
      var (t, d) := (Accepted(s, desk, client), Waiting(client, w, h, scale, s.nextNumber));
      Proofs.ArrivedInHand(s, desk, client);
      ArrivedFate(s, desk, client);
      QueuedAreOlder(s, desk);
      hide Proofs.Core, Declare, Fate;
      DeclareFate(t, desk, d, false);
      FateTwice(s, t, Declare(t, desk, d, false));
    }
  }

  lemma ArrivedFate(s: State, desk: Desk, client: ClientId)
    requires TwoDesks(s) && s.nextNumber !in s.ledger
    ensures Fate(s, Accepted(s, desk, client))
  {}

  lemma QueuedAreOlder(s: State, desk: Desk)
    requires Proofs.Inv(s)
    ensures s.desks[desk].queued.Some? ==> s.desks[desk].queued.value.number < s.nextNumber
  {
    assert Proofs.QueueFits(s, desk);
  }

  // ----- clients

  /** Dropped with its client: nothing else ends, and no other's. */
  ghost predicate OnlyDrops(s: State, t: State, desk: Desk, client: Option<ClientId>) {
    && TwoDesks(s) && TwoDesks(t)
    && (forall n :: n in t.ledger <==> n in s.ledger)
    && (forall n :: n in s.ledger ==> Kept(s.ledger[n], t.ledger[n]))
    && (forall n :: n in t.ledger && t.ledger[n] != s.ledger[n] ==>
          t.ledger[n].status == Dropped && t.ledger[n].desk == desk && Some(t.ledger[n].client) == client)
  }

  lemma DropsFate(s: State, t: State, desk: Desk, client: Option<ClientId>)
    requires OnlyDrops(s, t, desk, client) && (client.Some? ==> t.desks[desk].client != client)
    ensures Fate(s, t)
  {}

  /** What a client that leaves had waiting is dropped. */
  lemma LetGoDrops(s: State, desk: Desk, client: ClientId)
    requires TwoDesks(s) && Proofs.Core(s, {})
    requires s.desks[desk].queued.Some? ==> s.desks[desk].queued.value.client == client
    ensures OnlyDrops(s, LetGo(s, desk, client), desk, Some(client))
    ensures s.desks[desk].queued.Some? ==> Was(LetGo(s, desk, client), s.desks[desk].queued.value.number, Dropped)
  {
    if s.desks[desk].queued.Some? {
      Proofs.QueueKnown(s, desk);
    }
    hide Proofs.Core;
  }

  lemma EndBesideDrops(s: State)
    requires TwoDesks(s) && Proofs.Inv(s) && DeskProofs.OwnRequests(s.desks[BESIDE])
    requires s.desks[BESIDE].client.Some? <==> s.desks[BESIDE].selected.Some?
    ensures var t := EndBeside(s);
            && OnlyDrops(s, t, BESIDE, s.desks[BESIDE].client)
            && t.desks[FIRST] == s.desks[FIRST] && t.desks[BESIDE].client.None?
            && (s.desks[BESIDE].queued.Some? ==> Was(t, s.desks[BESIDE].queued.value.number, Dropped))
  {
    DeskProofs.EndBesideDesks(s);
    if s.desks[BESIDE].client.Some? {
      var client := s.desks[BESIDE].client.value;
      var gone := WithDesk(s, BESIDE, s.desks[BESIDE].(client := None)).(seats := SeatsEnd(s.seats, client));
      Proofs.OtherDesksCore(s, gone, {});
      hide Proofs.Core, LetGo;
      LetGoDrops(gone, BESIDE, client);
    }
  }

  lemma ShareFate(s: State, name: Name)
    requires DeskProofs.Desks(s) && Proofs.Inv(s)
    ensures Fate(s, ShareOutput(s, FIRST, name)) && NoArrivals(s, ShareOutput(s, FIRST, name))
  {
    EndBesideDrops(s);
    DropsFate(s, EndBeside(s), BESIDE, s.desks[BESIDE].client);
    SameLedger(s, s);
    hide EndBeside, Fate, Proofs.Inv, DeskProofs.Desks;
    var t := if s.desks[BESIDE].selected == Some(name) then EndBeside(s) else s;
    SameLedger(t, ShareOutput(s, FIRST, name));
    FateTwice(s, t, ShareOutput(s, FIRST, name));
  }

  lemma AdoptFate(s: State)
    requires DeskProofs.Desks(s) && Proofs.Inv(s)
    ensures Fate(s, AdoptOutput(s)) && NoArrivals(s, AdoptOutput(s))
  {
    SameLedger(s, s);
    hide ShareOutput, Fate, Proofs.Inv, DeskProofs.Desks, Selectable, FirstEntry, EntryNamed;
    var named := if s.wanted.Some? then EntryNamed(s.outputs, s.wanted.value) else None;
    var entry := if named.Some? then named else FirstEntry(s.outputs, None);
    if entry.Some? {
      ShareFate(s, entry.value.name.GetOr(0));
    }
  }

  lemma GoneFate(s: State, desk: Desk)
    requires DeskProofs.Desks(s) && Proofs.Inv(s)
    ensures Fate(s, OutputGone(s, desk)) && NoArrivals(s, OutputGone(s, desk))
  {
    if desk == FIRST {
      var t := WithDesk(s, FIRST, s.desks[FIRST].(selected := None));
      SameLedger(s, t);
      Proofs.OtherDesksCore(s, t, {});
      hide AdoptOutput, Fate, Proofs.Core;
      AdoptFate(t);
      FateTwice(s, t, AdoptOutput(t));
    } else {
      EndBesideDrops(s);
      DropsFate(s, EndBeside(s), BESIDE, s.desks[BESIDE].client);
    }
  }

  lemma DoneFate(s: State, o: Output)
    requires DeskProofs.Desks(s) && Proofs.Inv(s)
    ensures Fate(s, OutputDone(s, o))
  {
    var t := s.(outputs := Replace(s.outputs, o));
    SameLedger(s, t);
    Proofs.OtherDesksCore(s, t, {});
    hide AdoptOutput, Fate, Proofs.Core, Replace;
    AdoptFate(t);
    FateTwice(s, t, AdoptOutput(t));
  }

  lemma RemovedFate(s: State, i: nat)
    requires Inv(s) && i < |s.outputs|
    ensures Fate(s, OutputRemoved(s, i))
  {
    var name := s.outputs[i].name;
    var t := s.(outputs := s.outputs[..i] + s.outputs[i + 1..]);
    SameLedger(s, t);
    OutputsOnly(s, t.outputs);
    var u := if IsOn(s, FIRST, name) then OutputGone(t, FIRST) else t;
    GoneFate(t, FIRST);
    DeskProofs.GoneKeeps(t, FIRST);
    Proofs.GoneInv(t, FIRST);
    hide OutputGone, Fate, Proofs.Inv, DeskProofs.Desks;
    GoneFate(u, BESIDE);
    FateTwice(s, t, u);
    FateTwice(s, u, OutputGone(u, BESIDE));
  }

  /** The client whose desktop is taken goes, and the one beside with it. */
  lemma PreviousGoes(t: State, previous: ClientId)
    requires TwoDesks(t) && Proofs.Inv(t) && t.desks[FIRST].client != Some(previous)
    requires t.desks[FIRST].queued.Some? ==> t.desks[FIRST].queued.value.client == previous
    requires DeskProofs.OwnRequests(t.desks[BESIDE])
    requires t.desks[BESIDE].client.Some? <==> t.desks[BESIDE].selected.Some?
    ensures var u := EndBeside(LetGo(t, FIRST, previous)); Fate(t, u)
  {
    var u := LetGo(t, FIRST, previous);
    Proofs.LetGoInv(t, FIRST, previous);
    DeskProofs.LetGoDesks(t, FIRST, previous);
    LetGoDrops(t, FIRST, previous);
    hide Proofs.Inv, LetGo, EndBeside, Fate, OnlyDrops;
    DropsFate(t, u, FIRST, Some(previous));
    EndBesideDrops(u);
    DropsFate(u, EndBeside(u), BESIDE, u.desks[BESIDE].client);
    FateTwice(t, u, EndBeside(u));
  }

  lemma JoinedFate(s: State, client: ClientId)
    requires Inv(s) && Enabled(s, Joins(client))
    ensures Fate(s, ClientJoined(s, client))
  {
    var previous := s.desks[FIRST].client;
    var t := WithDesk(s, FIRST, s.desks[FIRST].(client := Some(client)));
    SameLedger(s, t);
    Proofs.OtherDesksCore(s, t, {});
    DeskProofs.JoinedKeeps(s, client);
    var after := ClientJoined(s, client);
    if previous.Some? {
      hide Proofs.Core, LetGo, EndBeside, Fate;
      PreviousGoes(t, previous.value);
      var u := EndBeside(LetGo(t, FIRST, previous.value));
      assert after == u.(seats := after.seats);
      SameLedger(u, after);
      FateTwice(t, u, after);
      JoinedLast(s, t, after);
    } else {
      SameLedger(s, after);
    }
  }

  /** What comes first changes no line. */
  lemma JoinedLast(s: State, t: State, u: State)
    requires TwoDesks(s) && t.ledger == s.ledger && Fate(t, u)
    ensures Fate(s, u)
  {}

  lemma AskedBesideFate(s: State, client: ClientId)
    requires Inv(s) && Enabled(s, JoinsBeside(client))
    ensures Fate(s, JoinBeside(s, client))
  {
    var t := EndBeside(s);
    EndBesideDrops(s);
    DropsFate(s, t, BESIDE, s.desks[BESIDE].client);
    SameLedger(s, s.(seats := SeatsEnd(s.seats, client)));
    var u := JoinBeside(s, client);
    assert u.ledger in {s.ledger, t.ledger} by { SeatLedger(s, client); }
    if u.ledger == s.ledger {
      SameLedger(s, u);
    } else {
      DeskProofs.JoinBesideKeeps(s, client);
      hide EndBeside, JoinBeside, Proofs.Inv, DeskProofs.Inv;
      DropsElsewhere(s, t, u, client);
    }
  }

  lemma SeatLedger(s: State, client: ClientId)
    requires TwoDesks(s)
    ensures JoinBeside(s, client).ledger in {s.ledger, EndBeside(s).ledger}
  {
    hide EndBeside, FirstEntry, Selectable;
  }

  /** The one that takes the seat is not the one whose declarations went with it. */
  lemma DropsElsewhere(s: State, t: State, u: State, client: ClientId)
    requires TwoDesks(s) && TwoDesks(u) && OnlyDrops(s, t, BESIDE, s.desks[BESIDE].client) && u.ledger == t.ledger
    requires u.desks[BESIDE].client.None? || u.desks[BESIDE].client == Some(client)
    requires s.desks[BESIDE].client != Some(client)
    ensures Fate(s, u)
  {}

  /** The desktop's client leaves: what it had waiting goes, and what it has out does not. */
  lemma FirstLeaves(s: State, client: ClientId)
    requires TwoDesks(s) && Proofs.Inv(s) && s.desks[FIRST].client == Some(client)
    requires DeskProofs.OwnRequests(s.desks[FIRST])
    ensures var left := WithDesk(s, FIRST, s.desks[FIRST].(client := None));
            var t := LetGo(left.(seats := left.seats.(holder := 0)), FIRST, client);
            Fate(s, t) && NoArrivals(s, t) && OnlyDrops(s, t, FIRST, Some(client))
  {
    var left := WithDesk(s, FIRST, s.desks[FIRST].(client := None));
    var v := left.(seats := left.seats.(holder := 0));
    SameLedger(s, v);
    Proofs.OtherDesksCore(s, v, {});
    DeskProofs.LetGoDesks(v, FIRST, client);
    hide Proofs.Core, LetGo, Fate;
    LetGoDrops(v, FIRST, client);
    DropsFate(v, LetGo(v, FIRST, client), FIRST, Some(client));
    FateTwice(s, v, LetGo(v, FIRST, client));
  }

  lemma LeftFate(s: State, client: ClientId)
    requires Inv(s)
    ensures Fate(s, ClientLeft(s, client))
  {
    EndBesideDrops(s);
    var t := EndBeside(s);
    DropsFate(s, t, BESIDE, s.desks[BESIDE].client);
    SameLedger(s, s);
    Proofs.EndBesideInv(s);
    hide Proofs.Inv, LetGo, EndBeside, Fate;
    if DeskOf(s, client) == Some(FIRST) {
      FirstLeaves(t, client);
      FateTwice(s, t, ClientLeft(s, client));
    }
  }

  // ----- every event

  lemma NextFate(s: State, e: Event)
    requires Inv(s) && Enabled(s, e)
    ensures Fate(s, Next(s, e))
  {
    SameLedger(s, s);
    hide Fate, Proofs.Inv, DeskProofs.Inv, OutputDone, OutputRemoved, CanConfigure;
    hide ClientJoined, JoinBeside, ClientLeft, ShareOutput;
    hide ClientDeclares, ConfigAnswered, SyncDone, ManagerDone;
    match e {
      case Joins(client) => JoinedFate(s, client);
      case JoinsBeside(client) => AskedBesideFate(s, client);
      case Leaves(client) => LeftFate(s, client);
      case Declares(client, w, h, scale) => DeclaresFate(s, client, w, h, scale);
      case Answers(config, answer) => AnsweredFate(s, config, answer);
      case Syncs(id) => SyncFate(s, id);
      case HeadsChange(changed) => ManagerFate(s, changed);
      case OutputIsDone(o) => DoneFate(s, o);
      case OutputGoes(i) => RemovedFate(s, i);
      case Selects(client, id) =>
        if Selectable(s.outputs, id).Some? {
          ShareFate(s, Selectable(s.outputs, id).value.name.GetOr(0));
        }
      case OutputSays(_) => SameLedger(s, Next(s, e));
      case FrameComes(_, _, _) => SameLedger(s, Next(s, e));
      case Resizes(_, _, _) => SameLedger(s, Next(s, e));
    }
  }

  // ----- over every run

  /** A declaration is its client's for good, and one that has ended stays as it ended. */
  lemma {:induction false} EndedStaysEnded(s: State, events: seq<Event>, n: nat)
    requires Inv(s) && CanRun(s, events) && n in s.ledger
    ensures n in Run(s, events).ledger && Kept(s.ledger[n], Run(s, events).ledger[n])
    decreases |events|
  {
    hide Inv, Next, Enabled;
    if events != [] {
      NextFate(s, events[0]);
      NextInv(s, events[0]);
      EndedStaysEnded(Next(s, events[0]), events[1..], n);
    }
  }

  /** Every one replaced has a newer of its client's, on its desk. */
  ghost predicate ReplacedByNewer(s: State) {
    forall n :: n in s.ledger && s.ledger[n].status == Replaced ==> HasLater(s, n)
  }

  lemma NextReplaced(s: State, t: State)
    requires Fate(s, t) && ReplacedByNewer(s)
    ensures ReplacedByNewer(t)
  {
    forall n | n in t.ledger && t.ledger[n].status == Replaced ensures HasLater(t, n) {
      if Was(s, n, Replaced) {
        LaterStays(s, t, n);
      }
    }
  }

  lemma {:induction false} RunReplaced(s: State, events: seq<Event>)
    requires Inv(s) && CanRun(s, events) && ReplacedByNewer(s)
    ensures ReplacedByNewer(Run(s, events))
    decreases |events|
  {
    hide Inv, Next, Enabled, ReplacedByNewer, Fate;
    if events != [] {
      NextFate(s, events[0]);
      NextReplaced(s, Next(s, events[0]));
      NextInv(s, events[0]);
      RunReplaced(Next(s, events[0]), events[1..]);
    }
  }

  lemma EveryReplacedHasANewer(outputs: seq<Output>, wanted: Option<Name>, manager: bool, selected: Option<Name>,
                               events: seq<Event>)
    requires CanRun(NewState(outputs, wanted, manager, selected), events)
    ensures ReplacedByNewer(Run(NewState(outputs, wanted, manager, selected), events))
  {
    NewInv(outputs, wanted, manager, selected);
    RunReplaced(NewState(outputs, wanted, manager, selected), events);
  }

  /** Conservation of declarations: in every reachable state each one accepted is exactly one
      of out, waiting, answered, replaced and answered, or dropped; the one out is the one
      whose configuration is, for the desk it was declared on, and an answer to it is still to
      come; nothing waits with nothing out; none is configured more than twice, or answered
      more than once. One replaced has a newer of its client's. And whatever happens next, one
      that has ended stays as it is, and none is dropped unless its client is then off its
      desk. */
  lemma EveryDeclarationIsAccountedFor(outputs: seq<Output>, wanted: Option<Name>, manager: bool,
                                       selected: Option<Name>, events: seq<Event>)
    requires CanRun(NewState(outputs, wanted, manager, selected), events)
    ensures var s := Run(NewState(outputs, wanted, manager, selected), events);
            && TwoDesks(s)
            && (forall n :: n in s.ledger <==> 0 <= n < s.nextNumber)
            && (forall n :: n in s.ledger ==>
                  var line := s.ledger[n];
                  && line.status != Arrived
                  && (line.status == Out <==> Proofs.IsOutNumber(s, n))
                  && (line.status == Out ==> s.declaring.value.desk == line.desk)
                  && (line.status == Queued <==> Proofs.WaitsOn(s, line.desk, n))
                  && line.configured <= 2
                  && line.answered == (if line.status.Answers() then 1 else 0)
                  && (line.status == Replaced ==> HasLater(s, n)))
            && Proofs.AnswerComes(s)
            && (s.declaring.None? ==> s.desks[FIRST].queued.None? && s.desks[BESIDE].queued.None?)
            && (forall e :: Enabled(s, e) ==> Fate(s, Next(s, e)))
  {
    var s := Run(NewState(outputs, wanted, manager, selected), events);
    NewInv(outputs, wanted, manager, selected);
    RunInv(NewState(outputs, wanted, manager, selected), events);
    EveryReplacedHasANewer(outputs, wanted, manager, selected, events);
    forall e | Enabled(s, e) ensures Fate(s, Next(s, e)) {
      NextFate(s, e);
    }
    assert Proofs.Core(s, {});
    hide DeskProofs.Inv, NewState, Next, Enabled, Fate, HasLater, Proofs.AnswerComes, Proofs.ConfigsFit;
    forall n | n in s.ledger ensures Proofs.LineFits(s, n) {}
    forall n | n in s.ledger ensures s.ledger[n].status == Queued <==> Proofs.WaitsOn(s, s.ledger[n].desk, n) {
      assert Proofs.LineFits(s, n);
    }
  }

  /** A client is on a desk throughout a run. */
  predicate StaysOn(s: State, events: seq<Event>, desk: Desk, client: ClientId)
    requires CanRun(s, events)
    decreases |events|
  {
    && TwoDesks(s) && s.desks[desk].client == Some(client)
    && (events == [] || StaysOn(Next(s, events[0]), events[1..], desk, client))
  }

  /** What is not dropped is not while its client stays. */
  lemma {:induction false} NotDroppedWhileItsClientStays(s: State, events: seq<Event>, n: nat)
    requires Inv(s) && CanRun(s, events) && n in s.ledger && s.ledger[n].status != Dropped
    requires StaysOn(s, events, s.ledger[n].desk, s.ledger[n].client)
    ensures n in Run(s, events).ledger && Run(s, events).ledger[n].status != Dropped
    decreases |events|
  {
    hide Inv, Next, Enabled;
    if events != [] {
      NextFate(s, events[0]);
      NextInv(s, events[0]);
      assert StaysOn(Next(s, events[0]), events[1..], s.ledger[n].desk, s.ledger[n].client);
      NotDroppedWhileItsClientStays(Next(s, events[0]), events[1..], n);
    }
  }

  /** A declaration accepted from a desk's client, in whatever state and whatever comes after:
      while the client stays on the desk it is out or waiting, or has been answered, once. */
  lemma EveryDeclarationIsAnsweredOrStillToBe(outputs: seq<Output>, wanted: Option<Name>, manager: bool,
                                              selected: Option<Name>, earlier: seq<Event>, e: Event,
                                              desk: Desk, later: seq<Event>)
    requires CanRun(NewState(outputs, wanted, manager, selected), earlier) && e.Declares?
    requires var s := Run(NewState(outputs, wanted, manager, selected), earlier);
             && TwoDesks(s) && DeskOf(s, e.client) == Some(desk)
             && CanRun(Next(s, e), later) && StaysOn(Next(s, e), later, desk, e.client)
    ensures var s := Run(NewState(outputs, wanted, manager, selected), earlier);
            var t := Run(Next(s, e), later);
            && s.nextNumber in t.ledger
            && var line := t.ledger[s.nextNumber];
               && line.client == e.client && line.desk == desk && line.configured <= 2
               && (line.status in {Out, Queued} || line.status in {Settled, Replaced})
               && line.answered == (if line.status in {Settled, Replaced} then 1 else 0)
  {
    var s := Run(NewState(outputs, wanted, manager, selected), earlier);
    NewInv(outputs, wanted, manager, selected);
    RunInv(NewState(outputs, wanted, manager, selected), earlier);
    hide Inv, NewState, Run, CanRun, StaysOn;
    NextInv(s, e);
    DeclaredIsNew(s, e, desk);
    AnsweredOrStillToBe(Next(s, e), later, s.nextNumber);
  }

  lemma DeclaredIsNew(s: State, e: Event, desk: Desk)
    requires Inv(s) && e.Declares? && DeskOf(s, e.client) == Some(desk)
    ensures var t := Next(s, e);
            && s.nextNumber in t.ledger && t.ledger[s.nextNumber].client == e.client
            && t.ledger[s.nextNumber].desk == desk && t.ledger[s.nextNumber].status != Dropped
  {
    var (t, n) := (Accepted(s, desk, e.client), s.nextNumber);
    DeskProofs.DeclaresRequests(s, e.client, e.width, e.height, e.scale);
    Proofs.ArrivedInHand(s, desk, e.client);
    QueuedAreOlder(s, desk);
    var d := Waiting(e.client, e.width, e.height, e.scale, n);
    hide Proofs.Core, Declare, Fate;
    DeclareFate(t, desk, d, false);
    assert Next(s, e) == Declare(t, desk, d, false);
    FateKeeps(t, Next(s, e), n);
  }

  lemma FateKeeps(s: State, t: State, n: nat)
    requires Fate(s, t) && n in s.ledger && !OffDesk(t, s.ledger[n]) && s.ledger[n].status != Dropped
    ensures n in t.ledger && Kept(s.ledger[n], t.ledger[n]) && t.ledger[n].status != Dropped
  {
    assert Kept(s.ledger[n], t.ledger[n]);
  }

  lemma AnsweredOrStillToBe(s: State, events: seq<Event>, n: nat)
    requires Inv(s) && CanRun(s, events) && n in s.ledger && s.ledger[n].status != Dropped
    requires StaysOn(s, events, s.ledger[n].desk, s.ledger[n].client)
    ensures var t := Run(s, events);
            && n in t.ledger
            && var line := t.ledger[n];
               && line.client == s.ledger[n].client && line.desk == s.ledger[n].desk && line.configured <= 2
               && line.status in {Out, Queued, Settled, Replaced}
               && line.answered == (if line.status in {Settled, Replaced} then 1 else 0)
  {
    NotDroppedWhileItsClientStays(s, events, n);
    EndedStaysEnded(s, events, n);
    RunInv(s, events);
    var t := Run(s, events);
    hide Run, CanRun, StaysOn;
    assert Proofs.Core(t, {});
    assert Proofs.LineFits(t, n);
  }
}
