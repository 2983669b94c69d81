/** What one key event does, and what it leaves alone (src/input.rs). */
module KeyboardLaws {
  import opened Options
  import opened Keyboards
  import opened KeyboardProofs

  /** The key a keysym is typed with, for a desk that now owns it or no longer does. */
  function CodeOf(t: Table, keysym: Keysym): Code
    requires keysym in t.keycodes
  {
    t.keycodes[keysym].code
  }

  /** A keysym no key has is dropped. */
  lemma UnknownIsDropped(k: Keymap, t: Table, s: Keyboard, desk: Desk, keysym: Keysym, down: bool)
    requires |s.owners| == 2 && keysym !in t.keycodes
    ensures DeskKey(k, t, s, desk, keysym, down) == s
  {}

  /** A keysym that is not a character is sent on its key as it is: whatever the keymap says, and
      in any state, a key held by nobody goes down, alone, and no correction is made or undone. */
  lemma NoCharacterIsSentAsItIs(k: Keymap, t: Table, s: Keyboard, desk: Desk, keysym: Keysym)
    requires |s.owners| == 2 && keysym in t.keycodes && !k.isCharacter(keysym) && CodeOf(t, keysym) !in s.held
    ensures var (u, code) := (DeskKey(k, t, s, desk, keysym, true), CodeOf(t, keysym));
            && u.history == s.history + (if code in s.down then [] else [Transition(code, true)])
            && u.down == s.down + {code} && u.held == s.held + {code} && u.fixes == s.fixes
            && u.owners == s.owners[desk := s.owners[desk] + {code}]
  {}

  /** A press of a key that is held, by either desk's client, sends nothing. */
  lemma RepeatSendsNothing(k: Keymap, t: Table, s: Keyboard, desk: Desk, keysym: Keysym)
    requires |s.owners| == 2 && keysym in t.keycodes && CodeOf(t, keysym) in s.held
    ensures DeskKey(k, t, s, desk, keysym, true)
         == s.(owners := s.owners[desk := s.owners[desk] + {CodeOf(t, keysym)}])
  {}

  /** A key pressed is its desk's, held, and down. */
  lemma PressedIsDown(k: Keymap, t: Table, s: Keyboard, desk: Desk, keysym: Keysym)
    requires |s.owners| == 2 && keysym in t.keycodes && CodeOf(t, keysym) !in s.held
    ensures var (u, code) := (DeskKey(k, t, s, desk, keysym, true), CodeOf(t, keysym));
            && code in u.held && code in u.down
            && u.owners == s.owners[desk := s.owners[desk] + {code}] && u.held == s.held + {code}
  {
    var p := t.keycodes[keysym];
    var holding := s.(owners := s.owners[desk := s.owners[desk] + {p.code}], held := s.held + {p.code});
    FixHolds(k, t, holding, p.code, p.level, keysym);
    hide FixShift;
  }

  lemma FixHolds(k: Keymap, t: Table, s: Keyboard, code: Code, level: nat, keysym: Keysym)
    ensures var u := FixShift(k, t, s, code, level, keysym); u.held == s.held && u.owners == s.owners
  {
    SendUpHolds(s, HeldOf(t.shiftCodes, s.held));
    hide SendUp, HeldOf;
  }

  lemma {:induction false} SendUpHolds(s: Keyboard, codes: seq<Code>)
    ensures var u := SendUp(s, codes); u.held == s.held && u.owners == s.owners && u.fixes == s.fixes
  {
    if codes != [] {
      SendUpHolds(s, codes[..|codes| - 1]);
    }
  }

  lemma {:induction false} PressHeldHolds(s: Keyboard, codes: seq<Code>)
    ensures var u := PressHeld(s, codes); u.held == s.held && u.owners == s.owners && u.fixes == s.fixes
  {
    if codes != [] {
      PressHeldHolds(s, codes[..|codes| - 1]);
    }
  }

  /** One released is no longer its desk's, and goes up unless the other's client holds it: then
      nothing is sent. One that goes up is sent going up if it is down, before anything else, and
      whatever was corrected for it stands no longer. */
  lemma ReleasedGoesUp(k: Keymap, t: Table, s: Keyboard, desk: Desk, keysym: Keysym)
    requires Inv(s) && keysym in t.keycodes
    ensures var (u, code) := (DeskKey(k, t, s, desk, keysym, false), CodeOf(t, keysym));
            && u.owners == s.owners[desk := s.owners[desk] - {code}]
            && (code in s.owners[1 - desk] ==> u == s.(owners := u.owners))
            && (code !in s.owners[1 - desk] ==>
                  && u.held == s.held - {code} && code !in u.fixes
                  && |u.history| >= |s.history| && u.history[..|s.history|] == s.history
                  && (code in s.down ==>
                        |u.history| > |s.history| && u.history[|s.history|] == Transition(code, false)))
  {
    var code := CodeOf(t, keysym);
    var disowned := s.(owners := s.owners[desk := s.owners[desk] - {code}]);
    assert Owned(disowned, code) <==> code in s.owners[1 - desk] by {
      assert disowned.owners[desk] == s.owners[desk] - {code} && disowned.owners[1 - desk] == s.owners[1 - desk];
    }
    if code !in s.owners[1 - desk] {
      ReleaseSends(t, disowned.(held := disowned.held - {code}), code);
      if code !in s.held {
        assert code !in s.fixes;
      }
      hide Release;
    }
  }

  lemma ReleaseSends(t: Table, s: Keyboard, code: Code)
    ensures var u := Release(t, s, code);
            && u.held == s.held && u.owners == s.owners && code !in u.fixes
            && |u.history| >= |s.history| && u.history[..|s.history|] == s.history
            && (code in s.down ==>
                  |u.history| > |s.history| && u.history[|s.history|] == Transition(code, false))
  {
    var fixes: map<Code, ShiftFix> := Retained(t, s.fixes, code);
    var up := SendKey(s.(fixes := fixes), code, false);
    var without := up.(fixes := fixes - {code});
    if code in fixes && fixes[code].Released? {
      PressHeldHolds(without, fixes[code].codes);
      PressHeldAdds(without, fixes[code].codes);
    }
    hide PressHeld, Retained;
  }

  lemma {:induction false} PressHeldAdds(s: Keyboard, codes: seq<Code>)
    ensures var u := PressHeld(s, codes); |u.history| >= |s.history| && u.history[..|s.history|] == s.history
  {
    if codes != [] {
      PressHeldAdds(s, codes[..|codes| - 1]);
    }
  }

  /** A key that goes up ends its own correction, and as a Shift every correction it was pressed
      for, that another key may yet be corrected by it; the rest stand. */
  lemma AReleaseEndsCorrections(k: Keymap, t: Table, s: Keyboard, desk: Desk, keysym: Keysym)
    requires Inv(s) && keysym in t.keycodes
    requires CodeOf(t, keysym) in s.held && CodeOf(t, keysym) !in s.owners[1 - desk]
    ensures var (u, code) := (DeskKey(k, t, s, desk, keysym, false), CodeOf(t, keysym));
            && (forall f :: f in u.fixes <==>
                  f in s.fixes && f != code && !(code in t.shiftCodes && s.fixes[f] == Pressed(code)))
            && (forall f :: f in u.fixes ==> u.fixes[f] == s.fixes[f])
  {
    var code := CodeOf(t, keysym);
    var disowned := s.(owners := s.owners[desk := s.owners[desk] - {code}]);
    assert !Owned(disowned, code) by {
      assert disowned.owners[desk] == s.owners[desk] - {code} && disowned.owners[1 - desk] == s.owners[1 - desk];
    }
    ReleaseFixes(t, disowned.(held := disowned.held - {code}), code);
    hide Release, Core;
  }

  lemma ReleaseFixes(t: Table, s: Keyboard, code: Code)
    ensures var u := Release(t, s, code);
            && (forall f :: f in u.fixes <==>
                  f in s.fixes && f != code && !(code in t.shiftCodes && s.fixes[f] == Pressed(code)))
            && (forall f :: f in u.fixes ==> u.fixes[f] == s.fixes[f])
  {
    var fixes: map<Code, ShiftFix> := Retained(t, s.fixes, code);
    var up := SendKey(s.(fixes := fixes), code, false);
    var without := up.(fixes := fixes - {code});
    if code in fixes && fixes[code].Released? {
      PressHeldHolds(without, fixes[code].codes);
    }
    hide PressHeld;
  }

  // ----- the keys an event leaves alone

  /** Every correction is of Shifts. */
  predicate FixedShifts(t: Table, s: Keyboard) {
    forall f :: f in s.fixes ==>
      match s.fixes[f]
      case Pressed(c) => c in t.shiftCodes
      case Released(cs) => forall c :: c in cs ==> c in t.shiftCodes
  }

  /** Keys that are no Shift, and not this one, are down as they were. */
  ghost predicate OthersStay(t: Table, s: Keyboard, u: Keyboard, code: Code) {
    forall c :: c !in t.shiftCodes && c != code ==> (c in u.down <==> c in s.down)
  }

  lemma {:induction false} SendUpStays(t: Table, s: Keyboard, codes: seq<Code>, code: Code)
    requires forall c :: c in codes ==> c in t.shiftCodes
    ensures OthersStay(t, s, SendUp(s, codes), code)
  {
    if codes != [] {
      SendUpStays(t, s, codes[..|codes| - 1], code);
    }
  }

  lemma {:induction false} PressHeldStays(t: Table, s: Keyboard, codes: seq<Code>, code: Code)
    requires forall c :: c in codes ==> c in t.shiftCodes
    ensures OthersStay(t, s, PressHeld(s, codes), code)
  {
    if codes != [] {
      PressHeldStays(t, s, codes[..|codes| - 1], code);
    }
  }

  lemma FixStays(k: Keymap, t: Table, s: Keyboard, code: Code, level: nat, keysym: Keysym)
    requires FixedShifts(t, s)
    ensures var u := FixShift(k, t, s, code, level, keysym); FixedShifts(t, u) && OthersStay(t, s, u, code)
  {
    var shifts := HeldOf(t.shiftCodes, s.held);
    HeldOfMembers(t.shiftCodes, s.held);
    SendUpStays(t, s, shifts, code);
    SendUpHolds(s, shifts);
    hide SendUp, HeldOf;
  }

  lemma ReleaseStays(t: Table, s: Keyboard, code: Code)
    requires FixedShifts(t, s)
    ensures FixedShifts(t, Release(t, s, code)) && OthersStay(t, s, Release(t, s, code), code)
  {
    var fixes: map<Code, ShiftFix> := Retained(t, s.fixes, code);
    assert forall f :: f in fixes ==> f in s.fixes && fixes[f] == s.fixes[f];
    var up := SendKey(s.(fixes := fixes), code, false);
    var without := up.(fixes := fixes - {code});
    if code in fixes && fixes[code].Released? {
      PressHeldStays(t, without, fixes[code].codes, code);
      PressHeldHolds(without, fixes[code].codes);
    }
    hide PressHeld, Retained;
  }

  /** A key event moves its own key, and Shifts where a correction is made or undone, and nothing
      else. */
  lemma OnlyItsKeyAndShiftsMove(k: Keymap, t: Table, s: Keyboard, desk: Desk, keysym: Keysym, down: bool)
    requires |s.owners| == 2 && FixedShifts(t, s) && keysym in t.keycodes
    ensures var u := DeskKey(k, t, s, desk, keysym, down);
            FixedShifts(t, u) && OthersStay(t, s, u, CodeOf(t, keysym))
  {
    var p := t.keycodes[keysym];
    var owned := s.(owners := s.owners[desk := s.owners[desk] + {p.code}]);
    var disowned := s.(owners := s.owners[desk := s.owners[desk] - {p.code}]);
    FixStays(k, t, owned.(held := owned.held + {p.code}), p.code, p.level, keysym);
    ReleaseStays(t, disowned.(held := disowned.held - {p.code}), p.code);
    hide FixShift, Release;
  }

  lemma {:induction false} LetGoAllStays(t: Table, s: Keyboard, order: seq<Code>)
    requires FixedShifts(t, s)
    ensures var u := LetGoAll(t, s, order);
            && FixedShifts(t, u)
            && forall c :: c !in t.shiftCodes && c !in order ==> (c in u.down <==> c in s.down)
    decreases |order|
  {
    if order != [] {
      var front, last := order[..|order| - 1], order[|order| - 1];
      LetGoAllStays(t, s, front);
      var u := LetGoAll(t, s, front);
      ReleaseStays(t, u.(held := u.held - {last}), last);
      hide Release, FixedShifts, Owned;
      LetGoIs(t, u, last);
    }
  }

  lemma LetGoIs(t: Table, u: Keyboard, code: Code)
    requires FixedShifts(t, u)
    requires var v := Release(t, u.(held := u.held - {code}), code); FixedShifts(t, v) && OthersStay(t, u, v, code)
    ensures FixedShifts(t, LetGo(t, u, code)) && OthersStay(t, u, LetGo(t, u, code), code)
  {
    hide Release;
  }

  lemma {:induction false} ReleaseEachStays(t: Table, s: Keyboard, order: seq<Code>)
    requires FixedShifts(t, s)
    ensures FixedShifts(t, ReleaseEach(t, s, order))
    decreases |order|
  {
    if order != [] {
      ReleaseEachStays(t, s, order[..|order| - 1]);
      ReleaseStays(t, ReleaseEach(t, s, order[..|order| - 1]), order[|order| - 1]);
    }
  }

  /** So does every run: corrections are of Shifts, whatever the clients press and the keymap
      says. */
  lemma {:induction false} RunFixesShifts(k: Keymap, t: Table, s: Keyboard, events: seq<Event>)
    requires Inv(s) && FixedShifts(t, s) && CanRun(k, t, s, events)
    ensures FixedShifts(t, Run(k, t, s, events))
    decreases |events|
  {
    if events != [] {
      NextFixesShifts(k, t, s, events[0]);
      hide FixedShifts, Next, CanHappen, Core;
      RunFixesShifts(k, t, Next(k, t, s, events[0]), events[1..]);
    }
  }

  lemma NextFixesShifts(k: Keymap, t: Table, s: Keyboard, e: Event)
    requires Inv(s) && FixedShifts(t, s) && CanHappen(t, s, e)
    ensures FixedShifts(t, Next(k, t, s, e)) && Inv(Next(k, t, s, e))
  {
    match e
    case KeyEvent(desk, keysym, down) =>
      DeskKeyKeeps(k, t, s, desk, keysym, down);
      if keysym in t.keycodes {
        OnlyItsKeyAndShiftsMove(k, t, s, desk, keysym, down);
      } else {
        UnknownIsDropped(k, t, s, desk, keysym, down);
      }
      hide DeskKey, Core;
    case Left(desk, order, rest) =>
      DeskLeftKeeps(t, s, desk, order, rest);
      hide Core, LetGoAll, ReleaseEach;
      LetGoAllStays(t, Disowned(s, desk), order);
      var gone := LetGoAll(t, Disowned(s, desk), order);
      ReleaseEachStays(t, gone.(held := {}), rest);
  }

  /** What a client leaves behind: nothing its neighbour does not hold stays held, and no key but
      those it held, and Shifts, moves. */
  lemma LeavingMovesOnlyItsKeys(t: Table, s: Keyboard, desk: Desk, order: seq<Code>, rest: seq<Code>)
    requires Inv(s) && FixedShifts(t, s) && Enumerates(order, s.owners[desk])
    requires Enumerates(rest, LetGoAll(t, Disowned(s, desk), order).held)
    ensures var u := DeskLeft(t, s, desk, order, rest);
            && u.owners == s.owners[desk := {}] && u.held == s.owners[1 - desk]
            && (s.owners[1 - desk] != {} ==>
                  forall c :: c !in t.shiftCodes && c !in s.owners[desk] ==> (c in u.down <==> c in s.down))
  {
    DeskLeftKeeps(t, s, desk, order, rest);
    LetGoAllStays(t, Disowned(s, desk), order);
    hide Core, LetGoAll, ReleaseEach;
    assert s.owners[desk := {}][1 - desk] == s.owners[1 - desk];
  }
}
