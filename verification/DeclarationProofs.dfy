/** What becomes of every density declaration (src/compositor.rs, src/outputs.rs). */
module DeclarationProofs {
  import opened Options
  import opened Compositors

  ghost predicate Numbered(s: State) {
    forall n :: n in s.ledger <==> 0 <= n < s.nextNumber
  }

  ghost predicate Waits(s: State, n: nat)
    requires TwoDesks(s)
  {
    WaitsOn(s, FIRST, n) || WaitsOn(s, BESIDE, n)
  }

  ghost predicate WaitsOn(s: State, desk: Desk, n: nat)
    requires TwoDesks(s)
  {
    s.desks[desk].queued.Some? && s.desks[desk].queued.value.number == n
  }

  ghost predicate IsOutNumber(s: State, n: nat) {
    s.declaring.Some? && s.declaring.value.number == n
  }

  /** A line of the ledger says where the declaration is, and it is nowhere else. */
  ghost predicate LineFits(s: State, n: nat)
    requires TwoDesks(s) && n in s.ledger
  {
    var line := s.ledger[n];
    && line.status != Arrived
    && line.configured <= 2
    && line.answered == (if line.status.Answers() then 1 else 0)
    && (line.status == Out <==> IsOutNumber(s, n))
    && (line.status == Queued <==> Waits(s, n))
    && (line.status == Out ==> s.declaring.value.desk == line.desk)
    && (line.status == Queued ==> WaitsOn(s, line.desk, n))
    && (line.status == Out ==> line.configured >= 1)
    && (line.status == Queued ==> line.configured == 0)
  }

  /** What waits on a desk is the declaration the ledger has, its client's. */
  ghost predicate QueueFits(s: State, desk: Desk)
    requires TwoDesks(s)
  {
    var q := s.desks[desk].queued;
    q.Some? ==> q.value.number in s.ledger && s.ledger[q.value.number].client == q.value.client
  }

  ghost predicate QueuesDiffer(s: State)
    requires TwoDesks(s)
  {
    s.desks[FIRST].queued.Some? && s.desks[BESIDE].queued.Some? ==>
      s.desks[FIRST].queued.value.number != s.desks[BESIDE].queued.value.number
  }

  /** A configuration of the declaration out is its client's, and a retry exactly when it is
      the second. */
  ghost predicate ConfigFits(s: State, kind: ConfigKind) {
    kind.ForDeclare? ==>
      && kind.id < s.nextDeclaration
      && (IsOut(s, kind.id) ==>
            && s.declaring.value.number in s.ledger
            && var line := s.ledger[s.declaring.value.number];
               line.client == kind.client && line.configured == (if kind.retry then 2 else 1))
  }

  ghost predicate ConfigsFit(s: State) {
    && (forall c :: c in s.configs ==> c < s.nextConfig && ConfigFits(s, s.configs[c]))
    && (forall id :: id in s.syncs ==> id < s.nextDeclaration)
  }

  /** The compositor still owes an answer that will settle the declaration out. */
  ghost predicate AnswerComes(s: State) {
    s.declaring.Some? ==>
      || s.declaring.value.id in s.syncs
      || exists c :: c in s.configs && s.configs[c].ForDeclare? && s.configs[c].id == s.declaring.value.id
  }

  /** Everything about the declarations, but for those in hand. */
  ghost predicate Core(s: State, hand: set<nat>) {
    && TwoDesks(s)
    && Numbered(s)
    && (forall n :: n in s.ledger && n !in hand ==> LineFits(s, n))
    && (forall n :: n in hand && n in s.ledger ==>
          !Waits(s, n) && !IsOutNumber(s, n) && s.ledger[n].answered == 0 && !Final(s.ledger[n].status))
    && QueueFits(s, FIRST) && QueueFits(s, BESIDE) && QueuesDiffer(s)
    && (s.declaring.Some? ==> s.declaring.value.number in s.ledger && s.declaring.value.id < s.nextDeclaration)
    && ConfigsFit(s)
    && AnswerComes(s)
  }

  /** Nothing waits with nothing out. */
  ghost predicate NoneStranded(s: State)
    requires TwoDesks(s)
  {
    s.declaring.None? ==> s.desks[FIRST].queued.None? && s.desks[BESIDE].queued.None?
  }

  ghost predicate Inv(s: State) {
    TwoDesks(s) && Core(s, {}) && NoneStranded(s)
  }

  // ----- one declaration in hand

  ghost predicate Final(status: Status) {
    status == Settled || status == Replaced || status == Dropped
  }

  lemma MarkedFinal(s: State, n: nat, status: Status)
    requires TwoDesks(s) && Core(s, {n}) && n in s.ledger && Final(status) && s.ledger[n].configured <= 2
    ensures Core(Marked(s, n, status), {})
    ensures SameDesks(s, Marked(s, n, status)) && Marked(s, n, status).declaring == s.declaring
  {
    var t := Marked(s, n, status);
    assert forall m :: m in t.ledger <==> m in s.ledger;
    forall m | m in t.ledger ensures LineFits(t, m) {
      if m != n {
        assert LineFits(s, m);
      }
    }
  }

  /** The declaration out taken in hand. */
  lemma OutTaken(s: State)
    requires TwoDesks(s) && Core(s, {}) && s.declaring.Some?
    ensures var n := s.declaring.value.number;
            n in s.ledger && s.ledger[n].configured in {1, 2} && Core(s.(declaring := None), {n})
  {
    var n := s.declaring.value.number;
    var t := s.(declaring := None);
    assert LineFits(s, n);
    forall m | m in t.ledger && m != n ensures LineFits(t, m) {
      assert LineFits(s, m);
    }
    forall c | c in t.configs ensures ConfigFits(t, t.configs[c]) {
      assert ConfigFits(s, s.configs[c]);
    }
  }

  lemma QueuedTaken(s: State, desk: Desk)
    requires TwoDesks(s) && Core(s, {}) && s.desks[desk].queued.Some?
    ensures var n := s.desks[desk].queued.value.number;
            n in s.ledger && s.ledger[n].configured == 0
            && Core(WithDesk(s, desk, s.desks[desk].(queued := None)), {n})
  {
    var n := s.desks[desk].queued.value.number;
    var t := WithDesk(s, desk, s.desks[desk].(queued := None));
    assert LineFits(s, n) && Waits(s, n);
    forall m | m in t.ledger && m != n ensures LineFits(t, m) {
      assert LineFits(s, m);
    }
    forall c | c in t.configs ensures ConfigFits(t, t.configs[c]) {
      assert ConfigFits(s, s.configs[c]);
    }
  }

  /** A declaration dropped from its desk's queue. */
  lemma QueuedDropped(s: State, desk: Desk)
    requires TwoDesks(s) && Core(s, {}) && s.desks[desk].queued.Some?
    ensures var n := s.desks[desk].queued.value.number;
            Core(Marked(WithDesk(s, desk, s.desks[desk].(queued := None)), n, Dropped), {})
  {
    QueuedTaken(s, desk);
    hide Core;
    MarkedFinal(WithDesk(s, desk, s.desks[desk].(queued := None)), s.desks[desk].queued.value.number, Dropped);
  }

  /** Requests of a desk that are not declarations are none of the ledger's business. */
  lemma OtherDesksCore(s: State, t: State, hand: set<nat>)
    requires TwoDesks(s) && Core(s, hand) && TwoDesks(t)
    requires t == s.(desks := t.desks, seats := t.seats, outputs := t.outputs, wanted := t.wanted)
    requires forall d: Desk :: t.desks[d].queued == s.desks[d].queued
    ensures Core(t, hand)
    ensures NoneStranded(s) ==> NoneStranded(t)
  {
    assert t.desks[FIRST].queued == s.desks[FIRST].queued && t.desks[BESIDE].queued == s.desks[BESIDE].queued;
    forall n | n in t.ledger && n !in hand ensures LineFits(t, n) {
      assert LineFits(s, n);
    }
    forall c | c in t.configs ensures ConfigFits(t, t.configs[c]) {
      assert ConfigFits(s, s.configs[c]);
    }
  }

  /** Put in the queue, with one out: the one it takes the place of is answered. */
  lemma QueueCore(s: State, desk: Desk, d: Waiting)
    requires TwoDesks(s) && Core(s, {d.number}) && d.number in s.ledger && s.declaring.Some?
    requires s.ledger[d.number].client == d.client && s.ledger[d.number].desk == desk
    requires s.ledger[d.number].configured == 0
    ensures Core(Queue(s, desk, d), {}) && Queue(s, desk, d).declaring == s.declaring
  {
    var n := d.number;
    var before := s.desks[desk].queued;
    var u := s;
    if before.Some? {
      var earlier := before.value.number;
      var t := WithDesk(s, desk, s.desks[desk].(queued := None));
      BothInHand(s, desk, n);
      u := Marked(t, earlier, Replaced);
      OneMarked(t, earlier, n, Replaced);
    }
    var waiting := WithDesk(u, desk, u.desks[desk].(queued := Some(d)));
    assert Marked(waiting, n, Queued) == Queue(s, desk, d);
    PutInQueue(u, desk, d);
  }

  lemma BothInHand(s: State, desk: Desk, n: nat)
    requires TwoDesks(s) && Core(s, {n}) && n in s.ledger && s.desks[desk].queued.Some?
    ensures var earlier := s.desks[desk].queued.value.number;
            earlier in s.ledger && earlier != n && s.ledger[earlier].configured == 0
            && Core(WithDesk(s, desk, s.desks[desk].(queued := None)), {n, earlier})
  {
    var earlier := s.desks[desk].queued.value.number;
    var t := WithDesk(s, desk, s.desks[desk].(queued := None));
    assert Waits(s, earlier);
    assert LineFits(s, earlier);
    forall m | m in t.ledger && m !in {n, earlier} ensures LineFits(t, m) {
      assert LineFits(s, m);
    }
    forall c | c in t.configs ensures ConfigFits(t, t.configs[c]) {
      assert ConfigFits(s, s.configs[c]);
    }
  }

  lemma OneMarked(t: State, earlier: nat, n: nat, status: Status)
    requires TwoDesks(t) && Core(t, {n, earlier}) && earlier in t.ledger && earlier != n
    requires Final(status) && t.ledger[earlier].configured <= 2
    ensures Core(Marked(t, earlier, status), {n})
  {
    var u := Marked(t, earlier, status);
    forall m | m in u.ledger && m != n ensures LineFits(u, m) {
      if m != earlier {
        assert LineFits(t, m);
      }
    }
    forall c | c in u.configs ensures ConfigFits(u, u.configs[c]) {
      assert ConfigFits(t, t.configs[c]);
    }
  }

  lemma PutInQueue(u: State, desk: Desk, d: Waiting)
    requires TwoDesks(u) && Core(u, {d.number}) && d.number in u.ledger && u.desks[desk].queued.None?
    requires u.ledger[d.number].client == d.client && u.ledger[d.number].desk == desk
    requires u.ledger[d.number].configured == 0
    ensures Core(Marked(WithDesk(u, desk, u.desks[desk].(queued := Some(d))), d.number, Queued), {})
  {
    var n := d.number;
    var w := Marked(WithDesk(u, desk, u.desks[desk].(queued := Some(d))), n, Queued);
    assert Waits(w, n);
    forall m | m in w.ledger ensures LineFits(w, m) {
      if m != n {
        assert LineFits(u, m);
      }
    }
    forall c | c in w.configs ensures ConfigFits(w, w.configs[c]) {
      assert ConfigFits(u, u.configs[c]);
    }
  }

  /** The state once the declaration's configuration is sent. */
  ghost function OutState(u: State, desk: Desk, n: nat, kind: ConfigKind): State
    requires n in u.ledger
  {
    u.(nextDeclaration := u.nextDeclaration + 1,
       configs := u.configs[u.nextConfig := kind],
       nextConfig := u.nextConfig + 1,
       ledger := u.ledger[n := u.ledger[n].(status := Out, configured := u.ledger[n].configured + 1)],
       declaring := Some(Declaring(u.nextDeclaration, desk, n)))
  }

  lemma OutStateIs(u: State, desk: Desk, n: nat, kind: ConfigKind)
    requires n in u.ledger
    ensures var v := SendConfig(u.(nextDeclaration := u.nextDeclaration + 1), kind);
            Marked(ConfiguredOnce(v, n), n, Out).(declaring := Some(Declaring(u.nextDeclaration, desk, n)))
            == OutState(u, desk, n, kind)
  {}

  /** A configuration sent: the declaration is the one out. */
  lemma SentOut(u: State, desk: Desk, d: Waiting, retry: bool)
    requires TwoDesks(u) && Core(u, {d.number}) && d.number in u.ledger && u.declaring.None?
    requires u.ledger[d.number].client == d.client && u.ledger[d.number].desk == desk
    requires u.ledger[d.number].configured == (if retry then 1 else 0)
    ensures Core(OutState(u, desk, d.number,
                          ForDeclare(u.nextDeclaration, d.client, d.width, d.height, d.scale, retry)), {})
  {
    var (n, id) := (d.number, u.nextDeclaration);
    var kind := ForDeclare(id, d.client, d.width, d.height, d.scale, retry);
    var w := OutState(u, desk, n, kind);
    forall m | m in w.ledger ensures LineFits(w, m) {
      if m != n {
        assert LineFits(u, m);
      }
    }
    SentConfigsFit(u, w, kind);
    assert w.configs[u.nextConfig] == kind;
    hide ConfigsFit, LineFits;
  }

  lemma SentConfigsFit(u: State, w: State, kind: ConfigKind)
    requires ConfigsFit(u) && u.declaring.None? && kind.ForDeclare? && kind.id == u.nextDeclaration
    requires w.nextDeclaration == u.nextDeclaration + 1 && w.nextConfig == u.nextConfig + 1 && w.syncs == u.syncs
    requires w.configs == u.configs[u.nextConfig := kind] && IsOut(w, kind.id)
    requires w.declaring.value.number in w.ledger
    requires var line := w.ledger[w.declaring.value.number];
             line.client == kind.client && line.configured == (if kind.retry then 2 else 1)
    ensures ConfigsFit(w)
  {
    forall c | c in w.configs ensures c < w.nextConfig && ConfigFits(w, w.configs[c]) {
      if c != u.nextConfig {
        assert ConfigFits(u, u.configs[c]);
      }
    }
  }

  lemma CountedDeclaration(s: State, hand: set<nat>)
    requires TwoDesks(s) && Core(s, hand)
    ensures Core(s.(nextDeclaration := s.nextDeclaration + 1), hand)
  {
    var t := s.(nextDeclaration := s.nextDeclaration + 1);
    forall n | n in t.ledger && n !in hand ensures LineFits(t, n) {
      assert LineFits(s, n);
    }
    forall c | c in t.configs ensures ConfigFits(t, t.configs[c]) {
      assert ConfigFits(s, s.configs[c]);
    }
  }

  lemma ConfigureCore(s: State, desk: Desk, d: Waiting, retry: bool)
    requires TwoDesks(s) && Core(s, {d.number}) && d.number in s.ledger && s.declaring.None?
    requires s.ledger[d.number].client == d.client && s.ledger[d.number].desk == desk
    requires s.ledger[d.number].configured == (if retry then 1 else 0)
    ensures Core(Configure(s, desk, d, retry), {})
    ensures forall e: Desk :: Configure(s, desk, d, retry).desks[e].queued == s.desks[e].queued
  {
    hide Core, NewScale, NewSize, CanConfigure, SendConfig, ConfiguredOnce, Marked, OutState;
    var hand := {d.number};
    if !NewScale(s, desk, d.scale) && !NewSize(s, desk, d.width, d.height) {
      MarkedFinal(s, d.number, Settled);
    } else if !CanConfigure(s, desk) {
      CountedDeclaration(s, hand);
      var t := s.(nextDeclaration := s.nextDeclaration + 1);
      var u := WithDesk(t, desk, t.desks[desk].(pendingResize := None));
      OtherDesksCore(t, u, hand);
      MarkedFinal(u, d.number, Settled);
    } else {
      var pending := if NewSize(s, desk, d.width, d.height) then Some(Resize(d.client, d.width, d.height)) else None;
      var u := WithDesk(s, desk, s.desks[desk].(pendingResize := pending));
      OtherDesksCore(s, u, hand);
      SentOut(u, desk, d, retry);
      OutStateIs(u, desk, d.number, ForDeclare(s.nextDeclaration, d.client, d.width, d.height, d.scale, retry));
    }
  }

  lemma DeclareCore(s: State, desk: Desk, d: Waiting, retry: bool)
    requires TwoDesks(s) && Core(s, {d.number}) && d.number in s.ledger
    requires s.ledger[d.number].client == d.client && s.ledger[d.number].desk == desk
    requires s.ledger[d.number].configured == (if retry then 1 else 0)
    requires retry ==> s.declaring.None?
    ensures Core(Declare(s, desk, d, retry), {})
    ensures s.declaring.Some? ==> Declare(s, desk, d, retry).declaring == s.declaring
    ensures s.declaring.None? ==>
              forall e: Desk :: Declare(s, desk, d, retry).desks[e].queued == s.desks[e].queued
  {
    hide Core, Queue, Configure;
    if s.declaring.Some? {
      QueueCore(s, desk, d);
    } else {
      ConfigureCore(s, desk, d, retry);
    }
  }

  // ----- settling

  lemma RunQueuedCore(s: State, desk: Desk)
    requires TwoDesks(s) && Core(s, {})
    ensures var t := RunQueued(s, desk);
            && Core(t, {})
            && (t.declaring.None? ==> s.declaring.None? && t.desks[desk].queued.None?
                                      && t.desks[1 - desk].queued == s.desks[1 - desk].queued)
  {
    var waiting := s.desks[desk].queued;
    if s.declaring.None? && waiting.Some? {
      QueuedTaken(s, desk);
      QueueKnown(s, desk);
      var t := WithDesk(s, desk, s.desks[desk].(queued := None));
      hide Core, Declare, Marked;
      if s.desks[desk].client == Some(waiting.value.client) {
        DeclareCore(t, desk, waiting.value, false);
      } else {
        MarkedFinal(t, waiting.value.number, Dropped);
      }
    }
  }

  lemma QueueKnown(s: State, desk: Desk)
    requires TwoDesks(s) && Core(s, {}) && s.desks[desk].queued.Some?
    ensures var q := s.desks[desk].queued.value;
            && q.number in s.ledger && s.ledger[q.number].client == q.client
            && s.ledger[q.number].desk == desk && s.ledger[q.number].status == Queued
  {
    assert QueueFits(s, desk);
  }

  lemma SettledInv(s: State)
    requires TwoDesks(s) && Core(s, {})
    ensures Inv(DeclarationSettled(s))
  {
    hide Core, RunQueued;
    RunQueuedCore(s, FIRST);
    RunQueuedCore(RunQueued(s, FIRST), BESIDE);
  }

  lemma SettleOutCore(s: State)
    requires TwoDesks(s) && Core(s, {}) && s.declaring.Some?
    ensures Core(SettleOut(s), {})
  {
    var n := s.declaring.value.number;
    OutTaken(s);
    hide Core;
    MarkedFinal(s.(declaring := None), n, Settled);
    assert SettleOut(s) == Marked(s.(declaring := None), n, Settled);
  }

  lemma {:induction false} ManagerInv(s: State, changed: seq<Option<Name>>)
    requires Inv(s)
    ensures Inv(ManagerDone(s, changed))
    decreases |changed|
  {
    if changed == [] {
    } else {
      var t := ManagerDone(s, changed[..|changed| - 1]);
      ManagerInv(s, changed[..|changed| - 1]);
      hide ManagerDone, Core;
      var name := changed[|changed| - 1];
      var u := if IsOn(t, FIRST, name) then ScaleChangedOn(t, FIRST) else t;
      ChangedOnInv(t, FIRST);
      ChangedOnInv(u, BESIDE);
    }
  }

  lemma ChangedOnInv(s: State, desk: Desk)
    requires Inv(s)
    ensures Inv(ScaleChangedOn(s, desk))
  {
    hide Core, DeclarationSettled;
    if s.declaring.Some? && s.declaring.value.desk == desk {
      SettleOutCore(s);
      SettledInv(SettleOut(s));
    }
  }

  /** A configuration answered is one fewer to be: where it was the declaration out's, there
      may be nothing left to settle it by. */
  ghost predicate CoreBut(s: State) {
    && TwoDesks(s) && Numbered(s)
    && (forall n :: n in s.ledger ==> LineFits(s, n))
    && QueueFits(s, FIRST) && QueueFits(s, BESIDE) && QueuesDiffer(s)
    && (s.declaring.Some? ==> s.declaring.value.number in s.ledger && s.declaring.value.id < s.nextDeclaration)
    && ConfigsFit(s)
  }

  lemma ForgottenBut(s: State, config: nat)
    requires TwoDesks(s) && Core(s, {}) && config in s.configs
    ensures CoreBut(Forgotten(s, config))
    ensures !(s.configs[config].ForDeclare? && IsOut(s, s.configs[config].id)) ==> Core(Forgotten(s, config), {})
    ensures ConfigFits(Forgotten(s, config), s.configs[config])
  {
    var t := Forgotten(s, config);
    forall n | n in t.ledger ensures LineFits(t, n) {
      assert LineFits(s, n);
    }
    forall c | c in t.configs ensures ConfigFits(t, t.configs[c]) {
      assert ConfigFits(s, s.configs[c]);
    }
    assert ConfigFits(s, s.configs[config]);
    if s.declaring.Some? && !(s.configs[config].ForDeclare? && IsOut(s, s.configs[config].id))
       && s.declaring.value.id !in s.syncs {
      var c :| c in s.configs && s.configs[c].ForDeclare? && s.configs[c].id == s.declaring.value.id;
      assert c in t.configs;
    }
  }

  lemma OutTakenBut(s: State)
    requires TwoDesks(s) && CoreBut(s) && s.declaring.Some?
    ensures var n := s.declaring.value.number;
            n in s.ledger && s.ledger[n].configured in {1, 2} && Core(s.(declaring := None), {n})
  {
    var n := s.declaring.value.number;
    var t := s.(declaring := None);
    assert LineFits(s, n);
    forall m | m in t.ledger && m != n ensures LineFits(t, m) {
      assert LineFits(s, m);
    }
    forall c | c in t.configs ensures ConfigFits(t, t.configs[c]) {
      assert ConfigFits(s, s.configs[c]);
    }
  }

  lemma SucceededInv(s: State, kind: ConfigKind)
    requires TwoDesks(s) && CoreBut(s) && NoneStranded(s) && ConfigFits(s, kind)
    requires !(kind.ForDeclare? && IsOut(s, kind.id)) ==> Core(s, {})
    ensures Inv(Succeeded(s, kind))
  {
    if kind.ForDeclare? && IsOut(s, kind.id) {
      var t := Succeeded(s, kind);
      forall n | n in t.ledger ensures LineFits(t, n) {
        assert LineFits(s, n);
      }
      forall c | c in t.configs ensures ConfigFits(t, t.configs[c]) {
        assert ConfigFits(s, s.configs[c]);
      }
    }
  }

  /** The declaration out taken, its desk's resize with it. */
  lemma OutWithdrawn(s: State)
    requires TwoDesks(s) && CoreBut(s) && s.declaring.Some?
    ensures var out := s.declaring.value;
            Core(WithoutResize(s.(declaring := None), out.desk), {out.number})
  {
    OutTakenBut(s);
    hide Core;
    var t := s.(declaring := None);
    OtherDesksCore(t, WithoutResize(t, s.declaring.value.desk), {s.declaring.value.number});
  }

  lemma AskedDeclareInv(s: State, kind: ConfigKind)
    requires TwoDesks(s) && CoreBut(s) && kind.ForDeclare? && IsOut(s, kind.id) && ConfigFits(s, kind) && !kind.retry
    ensures Inv(AskedAgain(s, kind))
  {
    var out := s.declaring.value;
    OutWithdrawn(s);
    var t := WithoutResize(s.(declaring := None), out.desk);
    var d := Waiting(kind.client, kind.width, kind.height, kind.scale, out.number);
    hide Core, CoreBut, Declare, DeclarationSettled, Marked;
    if t.desks[out.desk].client == Some(kind.client) {
      DeclareCore(t, out.desk, d, true);
      SettledInv(Declare(t, out.desk, d, true));
    } else {
      MarkedFinal(t, out.number, Dropped);
      SettledInv(Marked(t, out.number, Dropped));
    }
  }

  lemma ResizeInv(s: State, desk: Desk, client: ClientId, w: nat, h: nat, retry: bool)
    requires Inv(s)
    ensures Inv(ResizeDesk(s, desk, client, w, h, retry))
  {
    var t := WithDesk(s, desk, s.desks[desk].(pendingResize := Some(Resize(client, w, h))));
    var u := WithDesk(s, desk, s.desks[desk].(pendingResize := None));
    OtherDesksCore(s, t, {});
    OtherDesksCore(s, u, {});
    SendResizeInv(t, client, w, h, retry);
    hide Core, CanConfigure, SendConfig;
  }

  lemma SendResizeInv(t: State, client: ClientId, w: nat, h: nat, retry: bool)
    requires Inv(t)
    ensures Inv(SendConfig(t, ForResize(client, w, h, retry)))
  {
    var v := SendConfig(t, ForResize(client, w, h, retry));
    forall n | n in v.ledger ensures LineFits(v, n) {
      assert LineFits(t, n);
    }
    forall c | c in v.configs ensures c < v.nextConfig && ConfigFits(v, v.configs[c]) {
      if c != t.nextConfig {
        assert ConfigFits(t, t.configs[c]);
      }
    }
    if t.declaring.Some? && t.declaring.value.id !in t.syncs {
      var c :| c in t.configs && t.configs[c].ForDeclare? && t.configs[c].id == t.declaring.value.id;
      assert v.configs[c] == t.configs[c];
    }
  }

  lemma RefusedDeclareInv(s: State, kind: ConfigKind)
    requires TwoDesks(s) && CoreBut(s) && kind.ForDeclare? && IsOut(s, kind.id)
    ensures Inv(ConfigRefused(s, kind))
  {
    var out := s.declaring.value;
    OutWithdrawn(s);
    OutTakenBut(s);
    var t := WithoutResize(s.(declaring := None), out.desk);
    hide Core, CoreBut, DeclarationSettled;
    MarkedFinal(t, out.number, Settled);
    SettledInv(Marked(t, out.number, Settled));
    assert SettleOut(WithoutResize(s, out.desk)) == Marked(t, out.number, Settled);
  }

  lemma AnsweredInv(s: State, config: nat, answer: Answer)
    requires Inv(s) && config in s.configs
    ensures Inv(ConfigAnswered(s, config, answer))
  {
    var kind := s.configs[config];
    var t := Forgotten(s, config);
    ForgottenBut(s, config);
    hide Core, CoreBut, AskedAgain, ConfigRefused, Succeeded;
    if answer == Success {
      SucceededInv(t, kind);
    } else if answer == Cancellation && !kind.retry {
      AskedAgainInv(t, kind);
    } else {
      RefusedInv(t, kind);
    }
  }

  lemma AskedAgainInv(t: State, kind: ConfigKind)
    requires TwoDesks(t) && CoreBut(t) && NoneStranded(t) && ConfigFits(t, kind) && !kind.retry
    requires !(kind.ForDeclare? && IsOut(t, kind.id)) ==> Core(t, {})
    ensures Inv(AskedAgain(t, kind))
  {
    hide Core, CoreBut, ResizeDesk;
    if kind.ForDeclare? && IsOut(t, kind.id) {
      AskedDeclareInv(t, kind);
    } else if kind.ForResize? && DeskOf(t, kind.client).Some? {
      var desk := DeskOf(t, kind.client).value;
      OtherDesksCore(t, WithoutResize(t, desk), {});
      ResizeInv(WithoutResize(t, desk), desk, kind.client, kind.width, kind.height, true);
    }
  }

  lemma RefusedInv(t: State, kind: ConfigKind)
    requires TwoDesks(t) && CoreBut(t) && NoneStranded(t)
    requires !(kind.ForDeclare? && IsOut(t, kind.id)) ==> Core(t, {})
    ensures Inv(ConfigRefused(t, kind))
  {
    hide Core, CoreBut;
    if kind.ForDeclare? && IsOut(t, kind.id) {
      RefusedDeclareInv(t, kind);
    } else if kind.ForResize? && DeskOf(t, kind.client).Some? {
      OtherDesksCore(t, WithoutResize(t, DeskOf(t, kind.client).value), {});
    }
  }

  lemma SyncForgotten(s: State, id: nat)
    requires Inv(s)
    ensures var t := s.(syncs := s.syncs - {id});
            CoreBut(t) && NoneStranded(t) && (!IsOut(t, id) ==> Core(t, {}))
  {
    var t := s.(syncs := s.syncs - {id});
    forall n | n in t.ledger ensures LineFits(t, n) {
      assert LineFits(s, n);
    }
    forall c | c in t.configs ensures ConfigFits(t, t.configs[c]) {
      assert ConfigFits(s, s.configs[c]);
    }
  }

  lemma SyncInv(s: State, id: nat)
    requires Inv(s)
    ensures Inv(SyncDone(s, id))
  {
    var t := s.(syncs := s.syncs - {id});
    SyncForgotten(s, id);
    if IsOut(t, id) {
      OutTakenBut(t);
      var n := t.declaring.value.number;
      hide Core, CoreBut, DeclarationSettled;
      MarkedFinal(t.(declaring := None), n, Settled);
      assert SettleOut(t) == Marked(t.(declaring := None), n, Settled);
      SettledInv(SettleOut(t));
    }
  }

  // ----- clients

  lemma ArrivedInHand(s: State, desk: Desk, client: ClientId)
    requires TwoDesks(s) && Core(s, {})
    ensures Core(Accepted(s, desk, client), {s.nextNumber}) && s.nextNumber !in s.ledger
  {
    var n := s.nextNumber;
    var t := Accepted(s, desk, client);
    assert n !in s.ledger;
    forall m | m in t.ledger && m != n ensures LineFits(t, m) {
      assert LineFits(s, m);
    }
    forall c | c in t.configs ensures ConfigFits(t, t.configs[c]) {
      assert ConfigFits(s, s.configs[c]);
    }
  }

  lemma DeclaresInv(s: State, client: ClientId, w: nat, h: nat, scale: real)
    requires Inv(s)
    ensures Inv(ClientDeclares(s, client, w, h, scale))
  {
    if DeskOf(s, client).Some? {
      var desk := DeskOf(s, client).value;
      ArrivedInHand(s, desk, client);
      hide Core, Declare;
      DeclareCore(Accepted(s, desk, client), desk, Waiting(client, w, h, scale, s.nextNumber), false);
    }
  }

  lemma LetGoInv(s: State, desk: Desk, client: ClientId)
    requires Inv(s)
    ensures Inv(LetGo(s, desk, client))
  {
    var d := s.desks[desk];
    var t := LetGo(s, desk, client);
    if d.queued.Some? {
      QueuedDropped(s, desk);
      var dropped := Marked(WithDesk(s, desk, d.(queued := None)), d.queued.value.number, Dropped);
      hide Core;
      OtherDesksCore(dropped, t, {});
    } else {
      hide Core;
      OtherDesksCore(s, t, {});
    }
  }

  lemma EndBesideInv(s: State)
    requires Inv(s)
    ensures Inv(EndBeside(s))
  {
    hide Core, LetGo;
    if s.desks[BESIDE].client.Some? {
      var client := s.desks[BESIDE].client.value;
      var gone := WithDesk(s, BESIDE, s.desks[BESIDE].(client := None)).(seats := SeatsEnd(s.seats, client));
      OtherDesksCore(s, gone, {});
      LetGoInv(gone, BESIDE, client);
      var t := LetGo(gone, BESIDE, client);
      OtherDesksCore(t, WithDesk(t, BESIDE, t.desks[BESIDE].(selected := None)), {});
    }
  }

  lemma ShareInv(s: State, desk: Desk, name: Name)
    requires Inv(s)
    ensures Inv(ShareOutput(s, desk, name))
  {
    EndBesideInv(s);
    var t := if desk == FIRST && s.desks[BESIDE].selected == Some(name) then EndBeside(s) else s;
    hide Core, EndBeside;
    OtherDesksCore(t, ShareOutput(s, desk, name), {});
  }

  lemma AdoptInv(s: State)
    requires Inv(s)
    ensures Inv(AdoptOutput(s))
  {
    hide Core, ShareOutput;
    var named := if s.wanted.Some? then EntryNamed(s.outputs, s.wanted.value) else None;
    var entry := if named.Some? then named else FirstEntry(s.outputs, None);
    if entry.Some? {
      ShareInv(s, FIRST, entry.value.name.GetOr(0));
    }
  }

  lemma GoneInv(s: State, desk: Desk)
    requires Inv(s)
    ensures Inv(OutputGone(s, desk))
  {
    hide Core, AdoptOutput, EndBeside;
    if desk == FIRST {
      var t := WithDesk(s, FIRST, s.desks[FIRST].(selected := None));
      OtherDesksCore(s, t, {});
      AdoptInv(t);
    } else {
      EndBesideInv(s);
    }
  }

  lemma JoinedInv(s: State, client: ClientId)
    requires Inv(s)
    ensures Inv(ClientJoined(s, client))
  {
    hide Core, LetGo, EndBeside;
    var previous := s.desks[FIRST].client;
    var t := WithDesk(s, FIRST, s.desks[FIRST].(client := Some(client)));
    OtherDesksCore(s, t, {});
    var u := t;
    if previous.Some? {
      LetGoInv(t, FIRST, previous.value);
      EndBesideInv(LetGo(t, FIRST, previous.value));
      u := EndBeside(LetGo(t, FIRST, previous.value));
    }
    OtherDesksCore(u, u.(seats := u.seats.(holder := client)), {});
  }

  lemma JoinBesideInv(s: State, client: ClientId)
    requires Inv(s)
    ensures Inv(JoinBeside(s, client))
  {
    hide Core, EndBeside, ShareOutput, FirstEntry, Selectable;
    OtherDesksCore(s, s.(seats := SeatsEnd(s.seats, client)), {});
    EndBesideInv(s);
    var t := EndBeside(s);
    OtherDesksCore(t, t.(seats := SeatsEnd(t.seats, client)), {});
    var entry := FirstEntry(t.outputs, t.desks[FIRST].selected);
    if entry.Some? {
      var seated := WithDesk(t, BESIDE, t.desks[BESIDE].(client := Some(client)));
      OtherDesksCore(t, seated, {});
      ShareInv(seated, BESIDE, entry.value.name.GetOr(0));
      var shared := ShareOutput(seated, BESIDE, entry.value.name.GetOr(0));
      OtherDesksCore(shared, shared.(seats := shared.seats.(beside := client)), {});
    }
  }

  lemma LeftInv(s: State, client: ClientId)
    requires Inv(s)
    ensures Inv(ClientLeft(s, client))
  {
    hide Core, EndBeside, LetGo;
    EndBesideInv(s);
    var t := EndBeside(s);
    var left := WithDesk(t, FIRST, t.desks[FIRST].(client := None));
    OtherDesksCore(t, left, {});
    OtherDesksCore(left, left.(seats := left.seats.(holder := 0)), {});
    LetGoInv(left.(seats := left.seats.(holder := 0)), FIRST, client);
  }

  lemma SelectInv(s: State, client: ClientId, id: nat)
    requires Inv(s)
    ensures Inv(SelectOutput(s, client, id))
  {
    hide Core, ShareOutput;
    if Selectable(s.outputs, id).Some? {
      ShareInv(s, FIRST, Selectable(s.outputs, id).value.name.GetOr(0));
    }
  }
}
