/** No key is left stuck, whatever the two clients press and whatever the keymap says
    (src/input.rs).
 */
module KeyboardProofs {
  import opened Options
  import opened Keyboards

  /** A Shift some key's fix pressed. */
  predicate PressedByFix(s: Keyboard, c: Code) {
    exists f :: f in s.fixes && s.fixes[f] == Pressed(c)
  }

  /** A Shift some key's fix let go of. */
  predicate ReleasedByFix(s: Keyboard, c: Code) {
    exists f :: f in s.fixes && s.fixes[f].Released? && c in s.fixes[f].codes
  }

  /** What a key is down without its being held for, and held without its being down. */
  predicate DownAccounted(s: Keyboard) {
    forall c :: c in s.down ==> c in s.held || PressedByFix(s, c)
  }

  predicate HeldAccounted(s: Keyboard, but: set<Code>) {
    forall c :: c in s.held && c !in but ==> c in s.down || ReleasedByFix(s, c)
  }

  /** The keycodes down once the transitions are replayed. */
  function Replayed(history: seq<Transition>): set<Code> {
    if history == [] then {}
    else
      var before := Replayed(history[..|history| - 1]);
      var last := history[|history| - 1];
      if last.down then before + {last.code} else before - {last.code}
  }

  /** Every transition is of a key that was up when it went down, or down when it came up:
      those of one keycode alternate. */
  predicate Alternates(history: seq<Transition>) {
    history != [] ==>
      && Alternates(history[..|history| - 1])
      && var last := history[|history| - 1];
         last.down == (last.code !in Replayed(history[..|history| - 1]))
  }

  predicate Recorded(s: Keyboard) {
    Replayed(s.history) == s.down && Alternates(s.history)
  }

  /** The keys a Shift correction is held for are held themselves, and what is down and what
      is held differ only by the corrections. */
  predicate Core(s: Keyboard) {
    && s.fixes.Keys <= s.held
    && DownAccounted(s)
    && HeldAccounted(s, {})
    && Recorded(s)
  }

  predicate Inv(s: Keyboard) {
    && |s.owners| == 2
    && s.held == s.owners[0] + s.owners[1]
    && Core(s)
  }

  lemma SendRecorded(s: Keyboard, code: Code, down: bool)
    requires Recorded(s)
    ensures Recorded(SendKey(s, code, down))
  {
    var u := SendKey(s, code, down);
    if u != s {
      assert u.history[..|u.history| - 1] == s.history;
    }
  }

  lemma {:induction false} SendUpSends(s: Keyboard, codes: seq<Code>)
    requires Recorded(s)
    ensures var u := SendUp(s, codes);
            && Recorded(u) && u.held == s.held && u.owners == s.owners && u.fixes == s.fixes
            && u.down == s.down - (set c | c in codes)
  {
    if codes == [] {
    } else {
      var front, last := codes[..|codes| - 1], codes[|codes| - 1];
      SendUpSends(s, front);
      SendRecorded(SendUp(s, front), last, false);
      assert forall c :: c in codes <==> c in front || c == last;
    }
  }

  lemma {:induction false} PressHeldPresses(s: Keyboard, codes: seq<Code>)
    requires Recorded(s)
    ensures var u := PressHeld(s, codes);
            && Recorded(u) && u.held == s.held && u.owners == s.owners && u.fixes == s.fixes
            && u.down == s.down + (set c | c in codes && c in s.held)
  {
    if codes == [] {
    } else {
      var front, last := codes[..|codes| - 1], codes[|codes| - 1];
      PressHeldPresses(s, front);
      if last in s.held {
        SendRecorded(PressHeld(s, front), last, true);
      }
      assert forall c :: c in codes <==> c in front || c == last;
    }
  }

  lemma {:induction false} HeldOfMembers(codes: seq<Code>, held: set<Code>)
    ensures forall c :: c in HeldOf(codes, held) <==> c in codes && c in held
  {
    if codes == [] {
    } else {
      HeldOfMembers(codes[..|codes| - 1], held);
      assert forall c :: c in codes <==> c in codes[..|codes| - 1] || c == codes[|codes| - 1];
    }
  }

  /** A correction, of a key just held and not down yet. */
  lemma FixKeeps(k: Keymap, t: Table, s: Keyboard, code: Code, level: nat, keysym: Keysym)
    requires code in s.held && code !in s.fixes
    requires s.fixes.Keys <= s.held && DownAccounted(s) && HeldAccounted(s, {code}) && Recorded(s)
    ensures var u := FixShift(k, t, s, code, level, keysym);
            && u.held == s.held && u.owners == s.owners
            && u.fixes.Keys <= u.held && DownAccounted(u) && HeldAccounted(u, {code}) && Recorded(u)
  {
    if k.isCharacter(keysym) && k.produces(s.history, code) != keysym {
      var shiftDown := k.shiftActive(s.history);
      if level == 1 && !shiftDown && t.shiftCodes != [] {
        FixPresses(s, code, t.shiftCodes[0]);
      } else if level == 0 && shiftDown && HeldOf(t.shiftCodes, s.held) != [] {
        HeldOfMembers(t.shiftCodes, s.held);
        FixReleases(s, code, HeldOf(t.shiftCodes, s.held));
      }
    }
  }

  lemma FixPresses(s: Keyboard, code: Code, shift: Code)
    requires code in s.held && code !in s.fixes
    requires s.fixes.Keys <= s.held && DownAccounted(s) && HeldAccounted(s, {code}) && Recorded(s)
    ensures var pressed := SendKey(s, shift, true);
            var u := pressed.(fixes := pressed.fixes[code := Pressed(shift)]);
            u.fixes.Keys <= u.held && DownAccounted(u) && HeldAccounted(u, {code}) && Recorded(u)
  {
    var pressed := SendKey(s, shift, true);
    var u := pressed.(fixes := pressed.fixes[code := Pressed(shift)]);
    SendRecorded(s, shift, true);
    assert u.fixes[code] == Pressed(shift);
    assert Recorded(u);
    hide Recorded;
    forall c | c in u.down ensures c in u.held || PressedByFix(u, c) {
      if c != shift && c !in s.held {
        var f :| f in s.fixes && s.fixes[f] == Pressed(c);
        assert u.fixes[f] == Pressed(c);
      }
    }
    forall c | c in u.held && c != code ensures c in u.down || ReleasedByFix(u, c) {
      StillReleased(s, u, c);
    }
  }

  lemma FixReleases(s: Keyboard, code: Code, shifts: seq<Code>)
    requires code in s.held && code !in s.fixes
    requires s.fixes.Keys <= s.held && DownAccounted(s) && HeldAccounted(s, {code}) && Recorded(s)
    ensures var up := SendUp(s, shifts);
            var u := up.(fixes := up.fixes[code := Released(shifts)]);
            && u.held == s.held && u.owners == s.owners
            && u.fixes.Keys <= u.held && DownAccounted(u) && HeldAccounted(u, {code}) && Recorded(u)
  {
    var up := SendUp(s, shifts);
    var u := up.(fixes := up.fixes[code := Released(shifts)]);
    SendUpSends(s, shifts);
    assert u.fixes[code] == Released(shifts);
    forall c | c in u.down ensures c in u.held || PressedByFix(u, c) {
      if c !in s.held {
        var f :| f in s.fixes && s.fixes[f] == Pressed(c);
        assert u.fixes[f] == Pressed(c);
      }
    }
    forall c | c in u.held && c != code ensures c in u.down || ReleasedByFix(u, c) {
      StillReleased(s, u, c);
    }
  }

  lemma StillReleased(s: Keyboard, u: Keyboard, c: Code)
    requires forall f :: f in s.fixes ==> f in u.fixes && u.fixes[f] == s.fixes[f]
    ensures ReleasedByFix(s, c) ==> ReleasedByFix(u, c)
  {
    if ReleasedByFix(s, c) {
      var f :| f in s.fixes && s.fixes[f].Released? && c in s.fixes[f].codes;
      assert u.fixes[f] == s.fixes[f];
    }
  }

  /** A press of a key nobody held. */
  lemma PressKeeps(k: Keymap, t: Table, s: Keyboard, code: Code, level: nat, keysym: Keysym)
    requires Core(s) && code !in s.held
    ensures var fixed := FixShift(k, t, s.(held := s.held + {code}), code, level, keysym);
            var u := SendKey(fixed, code, true);
            Core(u) && u.held == s.held + {code} && u.owners == s.owners && code in u.down
  {
    var holding := s.(held := s.held + {code});
    assert DownAccounted(holding) by {
      forall c | c in holding.down ensures c in holding.held || PressedByFix(holding, c) {
        if c !in s.held {
          var f :| f in s.fixes && s.fixes[f] == Pressed(c);
          assert holding.fixes[f] == Pressed(c);
        }
      }
    }
    assert HeldAccounted(holding, {code}) by {
      forall c | c in holding.held && c != code ensures c in holding.down || ReleasedByFix(holding, c) {
        StillReleased(s, holding, c);
      }
    }
    FixKeeps(k, t, holding, code, level, keysym);
    var fixed := FixShift(k, t, holding, code, level, keysym);
    SendRecorded(fixed, code, true);
    var u := SendKey(fixed, code, true);
    forall c | c in u.down ensures c in u.held || PressedByFix(u, c) {
      if c !in u.held {
        assert c in fixed.down;
        var f :| f in fixed.fixes && fixed.fixes[f] == Pressed(c);
        assert u.fixes[f] == Pressed(c);
      }
    }
    forall c | c in u.held ensures c in u.down || ReleasedByFix(u, c) {
      StillReleased(fixed, u, c);
    }
  }

  /** What undoing a key's correction leaves down. */
  lemma ReleaseDown(t: Table, s: Keyboard, code: Code)
    requires Recorded(s)
    ensures var u := Release(t, s, code);
            var fixes := Retained(t, s.fixes, code);
            && Recorded(u) && u.held == s.held && u.owners == s.owners && u.fixes == fixes - {code}
            && (code !in fixes ==> u.down == s.down - {code})
            && (code in fixes && fixes[code].Pressed? ==>
                  u.down == s.down - {code} - (if fixes[code].code in s.held then {} else {fixes[code].code}))
            && (code in fixes && fixes[code].Released? ==>
                  u.down == (s.down - {code}) + (set c | c in fixes[code].codes && c in s.held))
  {
    var fixes: map<Code, ShiftFix> := Retained(t, s.fixes, code);
    var dropped := s.(fixes := fixes);
    SendRecorded(dropped, code, false);
    var without := SendKey(dropped, code, false).(fixes := fixes - {code});
    assert Recorded(without) && without.down == s.down - {code};
    if code in fixes {
      match fixes[code]
      case Pressed(shift) => SendRecorded(without, shift, false);
      case Released(shifts) => PressHeldPresses(without, shifts);
    } else {
      assert Release(t, s, code) == without;
    }
  }

  /** A key let go of, no longer held, with what its correction did. */
  lemma ReleaseKeeps(t: Table, s: Keyboard, code: Code)
    requires code !in s.held && s.fixes.Keys <= s.held + {code} && Recorded(s)
    requires forall c :: c in s.down && c != code ==> c in s.held || PressedByFix(s, c)
    requires HeldAccounted(s, {})
    ensures Core(Release(t, s, code))
  {
    var u := Release(t, s, code);
    var fixes := Retained(t, s.fixes, code);
    ReleaseDown(t, s, code);
    forall c | c in u.down ensures c in u.held || PressedByFix(u, c) {
      if c !in u.held {
        assert c in s.down && c != code;
        var f :| f in s.fixes && s.fixes[f] == Pressed(c);
        assert f in fixes && f != code;
        assert u.fixes[f] == Pressed(c);
      }
    }
    forall c | c in u.held ensures c in u.down || ReleasedByFix(u, c) {
      if c !in u.down {
        assert c !in s.down;
        var f :| f in s.fixes && s.fixes[f].Released? && c in s.fixes[f].codes;
        assert f in fixes && f != code;
        assert u.fixes[f] == s.fixes[f];
      }
    }
  }

  lemma LetGoKeeps(t: Table, s: Keyboard, code: Code)
    requires Core(s)
    ensures Core(LetGo(t, s, code))
    ensures LetGo(t, s, code).held == s.held - {code} && LetGo(t, s, code).owners == s.owners
  {
    var u := LetGo(t, s, code);
    if code in s.held {
      var dropped := s.(held := s.held - {code});
      forall c | c in dropped.down && c != code ensures c in dropped.held || PressedByFix(dropped, c) {
        if c !in s.held {
          var f :| f in s.fixes && s.fixes[f] == Pressed(c);
          assert dropped.fixes[f] == Pressed(c);
        }
      }
      forall c | c in dropped.held ensures c in dropped.down || ReleasedByFix(dropped, c) {
        StillReleased(s, dropped, c);
      }
      ReleaseDown(t, dropped, code);
      ReleaseKeeps(t, dropped, code);
    } else {
      SendRecorded(s, code, false);
      forall c | c in u.down ensures c in u.held || PressedByFix(u, c) {
        if c !in u.held {
          var f :| f in s.fixes && s.fixes[f] == Pressed(c);
          assert u.fixes[f] == Pressed(c);
        }
      }
      forall c | c in u.held ensures c in u.down || ReleasedByFix(u, c) {
        StillReleased(s, u, c);
      }
    }
  }

  lemma OwnersChange(s: Keyboard, owners: seq<set<Code>>)
    requires Core(s)
    ensures Core(s.(owners := owners))
  {
    var u := s.(owners := owners);
    forall c | c in u.down ensures c in u.held || PressedByFix(u, c) {
      if c !in s.held {
        var f :| f in s.fixes && s.fixes[f] == Pressed(c);
        assert u.fixes[f] == Pressed(c);
      }
    }
    forall c | c in u.held ensures c in u.down || ReleasedByFix(u, c) {
      StillReleased(s, u, c);
    }
  }

  lemma DeskKeyKeeps(k: Keymap, t: Table, s: Keyboard, desk: Desk, keysym: Keysym, down: bool)
    requires Inv(s)
    ensures Inv(DeskKey(k, t, s, desk, keysym, down))
  {
    if keysym in t.keycodes {
      var p := t.keycodes[keysym];
      if down {
        var owning := s.(owners := s.owners[desk := s.owners[desk] + {p.code}]);
        OwnersChange(s, owning.owners);
        if p.code !in s.held {
          PressKeeps(k, t, owning, p.code, p.level, keysym);
        }
      } else {
        var disowned := s.(owners := s.owners[desk := s.owners[desk] - {p.code}]);
        OwnersChange(s, disowned.owners);
        if Owned(disowned, p.code) {
          assert p.code in disowned.owners[0] || p.code in disowned.owners[1];
        } else {
          assert p.code !in disowned.owners[0] && p.code !in disowned.owners[1];
          LetGoKeeps(t, disowned, p.code);
        }
      }
    }
  }

  /** What a client that leaves held is let go of, but for what the other holds too. */
  lemma {:induction false} LetGoAllKeeps(t: Table, s: Keyboard, order: seq<Code>)
    requires Core(s) && |s.owners| == 2
    ensures var u := LetGoAll(t, s, order);
            && Core(u) && u.owners == s.owners
            && u.held == s.held - ((set c | c in order) - s.owners[0] - s.owners[1])
    decreases |order|
  {
    if order == [] {
    } else {
      var front, code := order[..|order| - 1], order[|order| - 1];
      var u := LetGoAll(t, s, front);
      LetGoAllKeeps(t, s, front);
      assert forall c :: c in order <==> c in front || c == code;
      if Owned(u, code) {
        assert code in u.owners[0] || code in u.owners[1];
      } else {
        assert code !in u.owners[0] && code !in u.owners[1];
        LetGoKeeps(t, u, code);
      }
    }
  }

  /** A client leaving, in whatever order its keys and then those held are gone through. The
      second pass finds nothing held: by then everything has been let go of. */
  lemma DeskLeftKeeps(t: Table, s: Keyboard, desk: Desk, order: seq<Code>, rest: seq<Code>)
    requires Inv(s) && Enumerates(order, s.owners[desk])
    requires Enumerates(rest, LetGoAll(t, Disowned(s, desk), order).held)
    ensures var u := DeskLeft(t, s, desk, order, rest);
            && Inv(u) && u.owners == s.owners[desk := {}]
            && (Deserted(u) ==> rest == [] && u.down == {})
  {
    var disowned := Disowned(s, desk);
    OwnersChange(s, disowned.owners);
    LetGoAllKeeps(t, disowned, order);
    var gone := LetGoAll(t, disowned, order);
    assert forall c :: c in order <==> c in s.owners[desk];
    assert gone.held == disowned.owners[0] + disowned.owners[1];
    if Deserted(disowned) {
      assert gone.held == {};
      SomeEnumerated(rest, gone.held);
      assert gone.(held := {}) == gone;
      NobodyHolds(gone);
    } else {
      assert disowned.owners == gone.owners;
    }
  }

  /** With nothing held no correction stands, and nothing is down. */
  lemma NobodyHolds(s: Keyboard)
    requires Core(s) && s.held == {}
    ensures s.down == {} && s.fixes == map[]
  {
    assert s.fixes.Keys == {};
    forall c ensures c !in s.down {
      assert !PressedByFix(s, c);
    }
  }

  lemma SomeEnumerated(order: seq<Code>, codes: set<Code>)
    requires Enumerates(order, codes)
    ensures order != [] ==> codes != {}
  {
    if order != [] {
      assert order[0] in codes;
    }
  }

  // ----- runs

  datatype Event =
    | KeyEvent(desk: Desk, keysym: Keysym, down: bool)
    | Left(desk: Desk, order: seq<Code>, rest: seq<Code>)

  /** A client's leaving goes through the keys it holds, in some order. */
  predicate CanHappen(t: Table, s: Keyboard, e: Event) {
    e.Left? ==>
      && |s.owners| == 2 && Enumerates(e.order, s.owners[e.desk])
      && Enumerates(e.rest, LetGoAll(t, Disowned(s, e.desk), e.order).held)
  }

  function Next(k: Keymap, t: Table, s: Keyboard, e: Event): Keyboard
    requires |s.owners| == 2
  {
    match e
    case KeyEvent(desk, keysym, down) => DeskKey(k, t, s, desk, keysym, down)
    case Left(desk, order, rest) => DeskLeft(t, s, desk, order, rest)
  }

  predicate CanRun(k: Keymap, t: Table, s: Keyboard, events: seq<Event>)
    decreases |events|
  {
    events == []
    || (|s.owners| == 2 && CanHappen(t, s, events[0]) && CanRun(k, t, Next(k, t, s, events[0]), events[1..]))
  }

  function Run(k: Keymap, t: Table, s: Keyboard, events: seq<Event>): Keyboard
    requires CanRun(k, t, s, events)
    decreases |events|
  {
    if events == [] then s else Run(k, t, Next(k, t, s, events[0]), events[1..])
  }

  lemma {:induction false} RunKeeps(k: Keymap, t: Table, s: Keyboard, events: seq<Event>)
    requires Inv(s) && CanRun(k, t, s, events)
    ensures Inv(Run(k, t, s, events))
    decreases |events|
  {
    hide Core, DeskKey, DeskLeft, Enumerates;
    if events == [] {
    } else {
      match events[0]
      case KeyEvent(desk, keysym, down) => DeskKeyKeeps(k, t, s, desk, keysym, down);
      case Left(desk, order, rest) => DeskLeftKeeps(t, s, desk, order, rest);
    }
    if events != [] {
      RunKeeps(k, t, Next(k, t, s, events[0]), events[1..]);
    }
  }

  /** No stuck key, over every two-desk run and whatever the keymap says: what the
      compositor was told is what replaying it gives, alternating key by key; with no
      correction standing the keys down are the keys held; and once neither client holds a
      key, none is down. */
  lemma NoStuckKey(k: Keymap, t: Table, events: seq<Event>)
    requires CanRun(k, t, NewKeyboard(), events)
    ensures var s := Run(k, t, NewKeyboard(), events);
            && |s.owners| == 2 && s.held == s.owners[0] + s.owners[1]
            && s.fixes.Keys <= s.held
            && (forall c :: c in s.down ==> c in s.held || PressedByFix(s, c))
            && (forall c :: c in s.held ==> c in s.down || ReleasedByFix(s, c))
            && (s.fixes == map[] ==> s.down == s.held)
            && (s.owners[0] == {} && s.owners[1] == {} ==> s.down == {})
            && Replayed(s.history) == s.down && Alternates(s.history)
  {
    RunKeeps(k, t, NewKeyboard(), events);
    var s := Run(k, t, NewKeyboard(), events);
    if s.fixes == map[] {
      assert forall c :: c in s.down ==> !PressedByFix(s, c);
      assert forall c :: c in s.held ==> !ReleasedByFix(s, c);
    }
    if s.owners[0] == {} && s.owners[1] == {} {
      NobodyHolds(s);
    }
  }
}
