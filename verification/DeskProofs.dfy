/** Who is where, in every state the compositor can be brought to (src/compositor.rs,
    src/shared.rs).
 */
module DeskProofs {
  import opened Options
  import opened Compositors

  /** A desk's resize and its waiting declaration are its own client's. */
  predicate OwnRequests(d: DeskState) {
    && (d.pendingResize.Some? ==> d.client == Some(d.pendingResize.value.client))
    && (d.queued.Some? ==> d.client == Some(d.queued.value.client))
  }

  /** All of the desks' invariant but for what the seats say. */
  predicate Desks(s: State) {
    && TwoDesks(s)
    && var (first, beside) := (s.desks[FIRST], s.desks[BESIDE]);
       && OwnRequests(first) && OwnRequests(beside)
       && (first.client.Some? ==> first.client.value > 0)
       && (beside.client.Some? ==> first.client.Some? && first.client.value < beside.client.value)
       && (beside.client.Some? <==> beside.selected.Some?)
       && (beside.selected.Some? ==> first.selected != beside.selected)
  }

  /** The seats mirror the desks. */
  predicate Mirrored(s: State) {
    && TwoDesks(s)
    && s.seats.holder == s.desks[FIRST].client.GetOr(0)
    && s.seats.beside == s.desks[BESIDE].client.GetOr(0)
  }

  predicate Inv(s: State) {
    Desks(s) && Mirrored(s)
  }

  // ----- who is where

  function First(s: State): Option<ClientId>
    requires TwoDesks(s)
  {
    s.desks[FIRST].client
  }

  function Beside(s: State): Option<ClientId>
    requires TwoDesks(s)
  {
    s.desks[BESIDE].client
  }

  /** Nobody is beside, and whoever was counts as ended. */
  predicate Ends(s: State, t: State)
    requires TwoDesks(s) && TwoDesks(t)
  {
    Beside(t).None? && t.seats.besideEnded == Max(s.seats.besideEnded, Beside(s).GetOr(0))
  }

  /** Whoever is beside stays there with nothing more ended, or has ended and nobody is; the
      desktop is its client's throughout. */
  predicate StaysOrEnds(s: State, t: State)
    requires TwoDesks(s) && TwoDesks(t)
  {
    && First(t) == First(s)
    && ((Beside(t) == Beside(s) && t.seats.besideEnded == s.seats.besideEnded) || Ends(s, t))
  }

  /** A connection that asked to be beside is seated in place of whoever was, or has ended; one
      newer than all that has ended and than the desktop's client leaves nobody else there. */
  predicate AskedBeside(s: State, client: ClientId, t: State)
    requires TwoDesks(s) && TwoDesks(t)
  {
    var ended := Max(s.seats.besideEnded, Beside(s).GetOr(0));
    && First(t) == First(s) && t.seats.besideEnded >= s.seats.besideEnded
    && (Beside(t) == Some(client) ==> t.seats.besideEnded == ended)
    && (Beside(t) != Some(client) ==>
          && (Beside(t) == Beside(s) || Beside(t).None?)
          && client <= t.seats.besideEnded <= Max(ended, client)
          && (Beside(t).Some? ==>
                || t.seats.besideEnded == s.seats.besideEnded
                || (t.seats.besideEnded == client && client < First(s).GetOr(0))))
    && (Beside(s).Some? && Beside(t) != Beside(s) ==> t.seats.besideEnded >= Beside(s).value)
    && (s.seats.besideEnded < client && First(s).GetOr(0) < client ==>
          Beside(t) == Some(client) || Beside(t).None?)
  }

  lemma {:induction false} FirstEntryIsAnother(outputs: seq<Output>, but: Option<Name>)
    ensures var e := FirstEntry(outputs, but);
            e.Some? ==> Listable(e.value) && e.value.name != but && e.value in outputs
    ensures forall o :: o in outputs && Listable(o) && o.name != but ==>
              FirstEntry(outputs, but).Some? && FirstEntry(outputs, but).value.name.GetOr(0) <= o.name.value
  {
    if outputs == [] {
    } else {
      FirstEntryIsAnother(outputs[1..], but);
      assert outputs == [outputs[0]] + outputs[1..];
    }
  }

  lemma Unmoved(s: State, t: State)
    requires TwoDesks(s) && TwoDesks(t) && t.seats == s.seats && First(t) == First(s) && Beside(t) == Beside(s)
    ensures StaysOrEnds(s, t)
  {}

  lemma LetGoDesks(s: State, desk: Desk, client: ClientId)
    requires TwoDesks(s)
    ensures var t := LetGo(s, desk, client);
            && t.desks[1 - desk] == s.desks[1 - desk]
            && t.desks[desk].client == s.desks[desk].client && t.desks[desk].selected == s.desks[desk].selected
            && t.desks[desk].queued.None?
            && (t.desks[desk].pendingResize.Some? ==>
                  t.desks[desk].pendingResize == s.desks[desk].pendingResize
                  && t.desks[desk].pendingResize.value.client != client)
            && t.seats == s.seats && t.outputs == s.outputs && t.wanted == s.wanted
  {}

  /** Nobody is beside any more, and everything beside is let go of. */
  lemma EndBesideDesks(s: State)
    requires TwoDesks(s) && OwnRequests(s.desks[BESIDE])
    requires s.desks[BESIDE].client.Some? <==> s.desks[BESIDE].selected.Some?
    ensures var t := EndBeside(s);
            && t.desks[FIRST] == s.desks[FIRST]
            && t.desks[BESIDE] == DeskState(None, None, None, None)
            && t.seats.holder == s.seats.holder
            && t.seats.besideEnded == Max(s.seats.besideEnded, s.desks[BESIDE].client.GetOr(0))
            && (s.seats.beside == s.desks[BESIDE].client.GetOr(0) ==> t.seats.beside == 0)
            && t.outputs == s.outputs && t.wanted == s.wanted
  {
    if s.desks[BESIDE].client.Some? {
      var client := s.desks[BESIDE].client.value;
      var gone := WithDesk(s, BESIDE, s.desks[BESIDE].(client := None)).(seats := SeatsEnd(s.seats, client));
      LetGoDesks(gone, BESIDE, client);
    }
  }

  lemma ShareFirst(s: State, name: Name)
    requires Inv(s)
    ensures Inv(ShareOutput(s, FIRST, name)) && StaysOrEnds(s, ShareOutput(s, FIRST, name))
  {
    hide LetGo;
    EndBesideDesks(s);
  }

  lemma AdoptKeeps(s: State)
    requires Inv(s)
    ensures Inv(AdoptOutput(s)) && StaysOrEnds(s, AdoptOutput(s))
  {
    hide ShareOutput, Inv;
    var named := if s.wanted.Some? then EntryNamed(s.outputs, s.wanted.value) else None;
    var entry := if named.Some? then named else FirstEntry(s.outputs, None);
    if entry.Some? {
      ShareFirst(s, entry.value.name.GetOr(0));
    }
  }

  lemma JoinedKeeps(s: State, client: ClientId)
    requires Inv(s) && client > 0 && DeskOf(s, client).None?
    ensures var t := ClientJoined(s, client);
            Inv(t) && Ends(s, t) && First(t) == Some(client)
  {
    var previous := s.desks[FIRST].client;
    var t := WithDesk(s, FIRST, s.desks[FIRST].(client := Some(client)));
    if previous.Some? {
      LetGoDesks(t, FIRST, previous.value);
      EndBesideDesks(LetGo(t, FIRST, previous.value));
    }
    hide LetGo, EndBeside;
  }

  lemma SeatKeeps(s: State, client: ClientId)
    requires Inv(s) && s.desks[FIRST].client.Some? && s.desks[FIRST].client.value < client
    ensures var t := SeatBeside(s, client);
            var ended := Max(s.seats.besideEnded, Beside(s).GetOr(0));
            && Inv(t) && First(t) == First(s)
            && if Beside(t) == Some(client) then t.seats.besideEnded == ended
               else Beside(t).None? && t.seats.besideEnded == Max(ended, client)
  {
    EndBesideDesks(s);
    var t := EndBeside(s);
    FirstEntryIsAnother(t.outputs, t.desks[FIRST].selected);
    hide LetGo, EndBeside, FirstEntry, Selectable;
  }

  lemma JoinBesideKeeps(s: State, client: ClientId)
    requires Inv(s) && client > 0 && DeskOf(s, client).None?
    ensures Inv(JoinBeside(s, client)) && AskedBeside(s, client, JoinBeside(s, client))
  {
    var holder := s.desks[FIRST].client;
    if s.seats.besideEnded >= client || holder.None? || holder.value > client {
    } else {
      SeatKeeps(s, client);
    }
  }

  lemma LeftKeeps(s: State, client: ClientId)
    requires Inv(s)
    ensures var t := ClientLeft(s, client);
            && Inv(t) && DeskOf(t, client).None?
            && (StaysOrEnds(s, t) || (Ends(s, t) && First(t).None? && First(s) == Some(client)))
  {
    EndBesideDesks(s);
    var t := EndBeside(s);
    if DeskOf(s, client) == Some(FIRST) {
      var left := WithDesk(t, FIRST, t.desks[FIRST].(client := None));
      LetGoDesks(left.(seats := left.seats.(holder := 0)), FIRST, client);
    }
    hide LetGo, EndBeside;
  }

  lemma SelectKeeps(s: State, client: ClientId, id: nat)
    requires Inv(s)
    ensures Inv(SelectOutput(s, client, id)) && StaysOrEnds(s, SelectOutput(s, client, id))
  {
    hide ShareOutput, Inv;
    if Selectable(s.outputs, id).Some? {
      ShareFirst(s, Selectable(s.outputs, id).value.name.GetOr(0));
    }
  }

  lemma GoneKeeps(s: State, desk: Desk)
    requires Inv(s)
    ensures Inv(OutputGone(s, desk)) && StaysOrEnds(s, OutputGone(s, desk))
  {
    if desk == FIRST {
      var t := WithDesk(s, FIRST, s.desks[FIRST].(selected := None));
      assert Inv(t);
      AdoptKeeps(t);
    } else {
      EndBesideDesks(s);
    }
    hide LetGo, AdoptOutput, EndBeside;
  }

  // ----- requests

  /** Everything but a desk's requests is as it was, and those are its own client's. */
  predicate OnlyRequests(s: State, t: State)
    requires TwoDesks(s) && TwoDesks(t)
  {
    && t.seats == s.seats && t.outputs == s.outputs && t.wanted == s.wanted
    && forall d: Desk :: t.desks[d].client == s.desks[d].client && t.desks[d].selected == s.desks[d].selected
                         && (OwnRequests(s.desks[d]) ==> OwnRequests(t.desks[d]))
  }

  lemma OnlyRequestsKeep(s: State, t: State)
    requires Inv(s) && TwoDesks(t) && OnlyRequests(s, t)
    ensures Inv(t) && t.seats == s.seats && StaysOrEnds(s, t)
  {
    assert OwnRequests(t.desks[FIRST]) && OwnRequests(t.desks[BESIDE]);
    assert t.desks[FIRST].client == s.desks[FIRST].client && t.desks[BESIDE].client == s.desks[BESIDE].client;
  }

  lemma DeclareRequests(s: State, desk: Desk, d: Waiting, retry: bool)
    requires TwoDesks(s) && s.desks[desk].client == Some(d.client)
    ensures OnlyRequests(s, Declare(s, desk, d, retry))
  {
    hide NewScale, NewSize, CanConfigure, Marked, ConfiguredOnce, SendConfig;
  }

  lemma RunQueuedRequests(s: State, desk: Desk)
    requires TwoDesks(s)
    ensures OnlyRequests(s, RunQueued(s, desk))
  {
    var waiting := s.desks[desk].queued;
    if s.declaring.None? && waiting.Some? && s.desks[desk].client == Some(waiting.value.client) {
      DeclareRequests(WithDesk(s, desk, s.desks[desk].(queued := None)), desk, waiting.value, false);
    }
    hide Declare;
  }

  lemma SettledRequests(s: State)
    requires TwoDesks(s)
    ensures OnlyRequests(s, DeclarationSettled(s))
  {
    RunQueuedRequests(s, FIRST);
    RunQueuedRequests(RunQueued(s, FIRST), BESIDE);
    hide RunQueued;
  }

  lemma ChangedOnRequests(s: State, desk: Desk)
    requires TwoDesks(s)
    ensures OnlyRequests(s, ScaleChangedOn(s, desk))
  {
    hide DeclarationSettled, Marked;
    if s.declaring.Some? {
      SettledRequests(SettleOut(s));
    }
  }

  lemma {:induction false} ManagerRequests(s: State, changed: seq<Option<Name>>)
    requires TwoDesks(s)
    ensures OnlyRequests(s, ManagerDone(s, changed))
    decreases |changed|
  {
    if changed == [] {
    } else {
      var t := ManagerDone(s, changed[..|changed| - 1]);
      ManagerRequests(s, changed[..|changed| - 1]);
      hide ManagerDone, ScaleChangedOn, OnlyRequests;
      var name := changed[|changed| - 1];
      var u := if IsOn(t, FIRST, name) then ScaleChangedOn(t, FIRST) else t;
      ChangedOnRequests(t, FIRST);
      ChangedOnRequests(u, BESIDE);
      if IsOn(t, FIRST, name) {
        OnlyRequestsTwice(s, t, u);
      }
      OnlyRequestsTwice(s, u, ScaleChangedOn(u, BESIDE));
    }
  }

  lemma OnlyRequestsTwice(s: State, t: State, u: State)
    requires TwoDesks(s) && TwoDesks(t) && TwoDesks(u) && OnlyRequests(s, t) && OnlyRequests(t, u)
    ensures OnlyRequests(s, u)
  {}

  lemma AskedDeclareRequests(s: State, kind: ConfigKind)
    requires TwoDesks(s) && kind.ForDeclare? && IsOut(s, kind.id)
    ensures OnlyRequests(s, AskedAgain(s, kind))
  {
    var out := s.declaring.value;
    var t := WithoutResize(s.(declaring := None), out.desk);
    assert OnlyRequests(s, t);
    var d := Waiting(kind.client, kind.width, kind.height, kind.scale, out.number);
    var again := if t.desks[out.desk].client == Some(kind.client) then Declare(t, out.desk, d, true)
                 else Marked(t, out.number, Dropped);
    assert OnlyRequests(t, Marked(t, out.number, Dropped));
    hide Declare, DeclarationSettled, OnlyRequests, Marked;
    if t.desks[out.desk].client == Some(kind.client) {
      DeclareRequests(t, out.desk, d, true);
    }
    SettledRequests(again);
    OnlyRequestsTwice(s, t, again);
    OnlyRequestsTwice(s, again, DeclarationSettled(again));
  }

  lemma AskedAgainRequests(s: State, kind: ConfigKind)
    requires TwoDesks(s)
    ensures OnlyRequests(s, AskedAgain(s, kind))
  {
    hide SendConfig, CanConfigure, Declare, DeclarationSettled;
    if kind.ForDeclare? && IsOut(s, kind.id) {
      AskedDeclareRequests(s, kind);
    }
  }

  lemma RefusedRequests(s: State, kind: ConfigKind)
    requires TwoDesks(s)
    ensures OnlyRequests(s, ConfigRefused(s, kind))
  {
    hide DeclarationSettled;
    if kind.ForDeclare? && IsOut(s, kind.id) {
      SettledRequests(SettleOut(WithoutResize(s, s.declaring.value.desk)));
    }
  }

  lemma AnsweredRequests(s: State, config: nat, answer: Answer)
    requires TwoDesks(s) && config in s.configs
    ensures OnlyRequests(s, ConfigAnswered(s, config, answer))
  {
    hide AskedAgain, ConfigRefused;
    AskedAgainRequests(Forgotten(s, config), s.configs[config]);
    RefusedRequests(Forgotten(s, config), s.configs[config]);
  }

  lemma SyncRequests(s: State, id: nat)
    requires TwoDesks(s)
    ensures OnlyRequests(s, SyncDone(s, id))
  {
    hide DeclarationSettled;
    var t := s.(syncs := s.syncs - {id});
    if IsOut(t, id) {
      SettledRequests(SettleOut(t));
    }
  }

  lemma DeclaresRequests(s: State, client: ClientId, w: nat, h: nat, scale: real)
    requires TwoDesks(s)
    ensures OnlyRequests(s, ClientDeclares(s, client, w, h, scale))
  {
    hide Declare;
    if DeskOf(s, client).Some? {
      DeclareRequests(Accepted(s, DeskOf(s, client).value, client), DeskOf(s, client).value,
                      Waiting(client, w, h, scale, s.nextNumber), false);
    }
  }
}
