/** What a key types: the table of keysyms read out of the keymap, and the symbol a press
    produces under a keymap whose only modifier is Shift (src/input.rs).
 */
module TypedSymbols {
  import opened Options
  import opened Keyboards
  import opened KeyboardProofs

  // ----- the table of keysyms

  /** A keysym found at a level of a keycode, in the order the keymap is gone through. */
  datatype Occurrence = Occurrence(code: Code, level: nat, keysym: Keysym)

  /** The first place found for each keysym, until one of a lower level is. */
  function TableOf(scan: seq<Occurrence>): map<Keysym, Place> {
    if scan == [] then map[]
    else
      var table := TableOf(scan[..|scan| - 1]);
      var o := scan[|scan| - 1];
      if o.keysym !in table || o.level < table[o.keysym].level
      then table[o.keysym := Place(o.code, o.level)] else table
  }

  method BuildTable(scan: seq<Occurrence>) returns (keycodes: map<Keysym, Place>)
    ensures keycodes == TableOf(scan)
  {
    keycodes := map[];
    for i := 0 to |scan|
      invariant keycodes == TableOf(scan[..i])
    {
      assert scan[..i + 1][..i] == scan[..i];
      var o := scan[i];
      if o.keysym !in keycodes {
        keycodes := keycodes[o.keysym := Place(o.code, o.level)];
      } else if o.level < keycodes[o.keysym].level {
        keycodes := keycodes[o.keysym := Place(o.code, o.level)];
      }
    }
    assert scan[..|scan|] == scan;
  }

  /** The `i`-th occurrence is the first of its keysym at the lowest level it has. */
  predicate FirstLowest(scan: seq<Occurrence>, i: nat) {
    && i < |scan|
    && forall j :: 0 <= j < |scan| && scan[j].keysym == scan[i].keysym ==>
         scan[i].level < scan[j].level || (scan[i].level == scan[j].level && i <= j)
  }

  /** The table holds exactly the keysyms that occur, each at the first place it has of the
      lowest level it has. */
  lemma {:induction false} TableIsLowest(scan: seq<Occurrence>, keysym: Keysym)
    ensures keysym in TableOf(scan) <==> exists i :: 0 <= i < |scan| && scan[i].keysym == keysym
    ensures keysym in TableOf(scan) ==>
              exists i: nat :: FirstLowest(scan, i) && scan[i].keysym == keysym
                          && TableOf(scan)[keysym] == Place(scan[i].code, scan[i].level)
  {
    if scan == [] {
    } else {
      var front, o := scan[..|scan| - 1], scan[|scan| - 1];
      TableIsLowest(front, keysym);
      if keysym in TableOf(front) {
        var i: nat :| FirstLowest(front, i) && front[i].keysym == keysym
                 && TableOf(front)[keysym] == Place(front[i].code, front[i].level);
        assert scan[i] == front[i];
        assert forall j :: 0 <= j < |front| ==> scan[j] == front[j];
        if o.keysym == keysym && o.level < front[i].level {
          assert FirstLowest(scan, |scan| - 1);
        } else {
          assert FirstLowest(scan, i);
        }
      } else {
        assert forall j :: 0 <= j < |front| ==> front[j] == scan[j] && scan[j].keysym != keysym;
        if o.keysym == keysym {
          assert FirstLowest(scan, |scan| - 1);
        }
      }
    }
  }

  // ----- a keymap whose only modifier is Shift

  /** Each keycode's keysyms by level, from the unshifted one up. */
  type Levels = map<Code, seq<Keysym>>

  /** Shift chooses the second level of a key that has one. */
  function Produces(levels: Levels, shifts: seq<Code>, history: seq<Transition>, code: Code): Keysym {
    if code !in levels || levels[code] == [] then 0
    else if |levels[code]| > 1 && ShiftDown(shifts, history) then levels[code][1]
    else levels[code][0]
  }

  predicate ShiftDown(shifts: seq<Code>, history: seq<Transition>) {
    exists c :: c in Replayed(history) && c in shifts
  }

  function ShiftKeymap(levels: Levels, shifts: seq<Code>, isCharacter: Keysym -> bool): Keymap {
    Keymap((history, code) => Produces(levels, shifts, history, code),
           history => ShiftDown(shifts, history),
           isCharacter)
  }

  /** The table is the keymap's own: a keysym's place is one it is found at, and there is
      none of a lower level on that key. */
  predicate TableFits(t: Table, levels: Levels) {
    forall keysym :: keysym in t.keycodes ==>
      var p := t.keycodes[keysym];
      && p.code in levels && p.level < |levels[p.code]| && levels[p.code][p.level] == keysym
      && forall l :: 0 <= l < p.level ==> levels[p.code][l] != keysym
  }

  /** A Shift that is down and that no client holds. */
  predicate StrayShift(t: Table, s: Keyboard) {
    exists c :: c in s.down && c in t.shiftCodes && c !in s.held
  }

  /** The keyboard as a fresh press finds it once Shift is corrected for it. */
  function Corrected(k: Keymap, t: Table, s: Keyboard, code: Code, level: nat, keysym: Keysym): Keyboard {
    FixShift(k, t, s.(held := s.held + {code}), code, level, keysym)
  }

  /** A stray Shift is one another key's correction pressed. */
  lemma StrayIsAnothersFix(t: Table, s: Keyboard, code: Code)
    requires Core(s) && code !in s.held && StrayShift(t, s.(held := s.held + {code}))
    ensures exists f, c :: f in s.fixes && f != code && c in t.shiftCodes && s.fixes[f] == Pressed(c)
  {
    var c :| c in s.down && c in t.shiftCodes && c !in s.held + {code};
    assert PressedByFix(s, c);
  }

  /** Letting go of the Shifts held leaves one down exactly when one is stray. */
  lemma ShiftsLetGo(t: Table, s: Keyboard)
    requires Recorded(s)
    ensures var up := SendUp(s, HeldOf(t.shiftCodes, s.held));
            ShiftDown(t.shiftCodes, up.history) <==> StrayShift(t, s)
  {
    var shifts := HeldOf(t.shiftCodes, s.held);
    SendUpSends(s, shifts);
    HeldOfMembers(t.shiftCodes, s.held);
    var up := SendUp(s, shifts);
    assert forall c :: c in up.down && c in t.shiftCodes <==> c in s.down && c in t.shiftCodes && c !in s.held;
  }

  /** Whether a character is typed as meant: at the first level unless the key has another
      and a Shift is down that no client holds; at the second while the keymap has a Shift
      to press; and never at a level Shift does not reach. */
  predicate TypedAsMeant(t: Table, levels: Levels, s: Keyboard, code: Code, level: nat, keysym: Keysym)
    requires code in levels && level < |levels[code]|
  {
    if level == 0 then |levels[code]| == 1 || levels[code][1] == keysym || !StrayShift(t, s)
    else level == 1 && t.shiftCodes != []
  }

  /** Typed symbol: a character pressed afresh goes down while its keycode yields exactly
      that keysym, if and only if it can be typed as meant. */
  lemma TypedSymbol(levels: Levels, isCharacter: Keysym -> bool, t: Table, s: Keyboard, keysym: Keysym)
    requires Core(s) && TableFits(t, levels) && keysym in t.keycodes && isCharacter(keysym)
    requires t.keycodes[keysym].code !in s.held
    ensures var p := t.keycodes[keysym];
            var k := ShiftKeymap(levels, t.shiftCodes, isCharacter);
            var corrected := Corrected(k, t, s, p.code, p.level, keysym);
            (k.produces(corrected.history, p.code) == keysym)
            == TypedAsMeant(t, levels, s.(held := s.held + {p.code}), p.code, p.level, keysym)
  {
    var p := t.keycodes[keysym];
    var holding := s.(held := s.held + {p.code});
    var active := ShiftDown(t.shiftCodes, s.history);
    ShiftsLetGo(t, holding);
    if p.level == 0 {
      if active && |levels[p.code]| > 1 && levels[p.code][1] != keysym {
        HeldOfMembers(t.shiftCodes, holding.held);
        if HeldOf(t.shiftCodes, holding.held) == [] {
          var c :| c in Replayed(s.history) && c in t.shiftCodes;
          assert StrayShift(t, holding);
        }
      } else {
        assert StrayShift(t, holding) ==> active by {
          if StrayShift(t, holding) {
            var c :| c in holding.down && c in t.shiftCodes && c !in holding.held;
            assert c in Replayed(s.history);
          }
        }
      }
    } else if p.level == 1 && !active && t.shiftCodes != [] {
      SendRecorded(holding, t.shiftCodes[0], true);
      var pressed := SendKey(holding, t.shiftCodes[0], true);
      assert t.shiftCodes[0] in Replayed(pressed.history);
      assert levels[p.code][0] != keysym;
    } else {
      assert levels[p.code][0] != keysym;
      assert p.level == 1 && active ==> t.shiftCodes != [];
      assert p.level > 1 ==> levels[p.code][1] != keysym;
    }
  }

  /** The press then sends the key going down, unless a correction had it down already. */
  lemma PressGoesDown(levels: Levels, isCharacter: Keysym -> bool, t: Table, s: Keyboard, keysym: Keysym)
    requires Core(s) && keysym in t.keycodes && t.keycodes[keysym].code !in s.held
    ensures var p := t.keycodes[keysym];
            var k := ShiftKeymap(levels, t.shiftCodes, isCharacter);
            var corrected := Corrected(k, t, s, p.code, p.level, keysym);
            var u := Key(k, t, s, keysym, true);
            && p.code in u.down && Core(u)
            && (p.code !in corrected.down ==> u.history == corrected.history + [Transition(p.code, true)])
  {
    var p := t.keycodes[keysym];
    PressKeeps(ShiftKeymap(levels, t.shiftCodes, isCharacter), t, s, p.code, p.level, keysym);
  }

  /** The keymap gone through whole: every level of every key, and nothing else. */
  predicate ScanOf(scan: seq<Occurrence>, levels: Levels) {
    && (forall i :: 0 <= i < |scan| ==>
          && scan[i].code in levels && scan[i].level < |levels[scan[i].code]|
          && levels[scan[i].code][scan[i].level] == scan[i].keysym)
    && (forall c, l :: c in levels && 0 <= l < |levels[c]| ==> Occurrence(c, l, levels[c][l]) in scan)
  }

  /** The table read out of a keymap fits it. */
  lemma BuiltTableFits(scan: seq<Occurrence>, levels: Levels, shifts: seq<Code>)
    requires ScanOf(scan, levels)
    ensures TableFits(Table(TableOf(scan), shifts), levels)
  {
    forall keysym | keysym in TableOf(scan)
      ensures var p := TableOf(scan)[keysym];
              && p.code in levels && p.level < |levels[p.code]| && levels[p.code][p.level] == keysym
              && forall l :: 0 <= l < p.level ==> levels[p.code][l] != keysym
    {
      TableIsLowest(scan, keysym);
      var i: nat :| FirstLowest(scan, i) && scan[i].keysym == keysym
                    && TableOf(scan)[keysym] == Place(scan[i].code, scan[i].level);
      var p := TableOf(scan)[keysym];
      forall l | 0 <= l < p.level ensures levels[p.code][l] != keysym {
        assert Occurrence(p.code, l, levels[p.code][l]) in scan;
      }
    }
  }

  // ----- where a character is mistyped

  const SHIFT: Code := 50
  const A_KEY: Code := 38
  const B_KEY: Code := 56

  function SmallLevels(): Levels {
    map[SHIFT := [0xffe1], A_KEY := ['a' as nat, 'A' as nat], B_KEY := ['b' as nat, 'B' as nat]]
  }

  function SmallTable(): Table {
    Table(map[0xffe1 := Place(SHIFT, 0), 'a' as nat := Place(A_KEY, 0), 'A' as nat := Place(A_KEY, 1),
              'b' as nat := Place(B_KEY, 0), 'B' as nat := Place(B_KEY, 1)],
          [SHIFT])
  }

  function SmallKeymap(): Keymap {
    ShiftKeymap(SmallLevels(), SmallTable().shiftCodes, keysym => keysym < 128)
  }

  /** `A` pressed by a client that sends no Shift of its own. */
  lemma CapitalPressed()
    ensures DeskKey(SmallKeymap(), SmallTable(), NewKeyboard(), 0, 'A' as nat, true)
         == Keyboard({A_KEY}, [{A_KEY}, {}], map[A_KEY := Pressed(SHIFT)], {SHIFT, A_KEY},
                     [Transition(SHIFT, true), Transition(A_KEY, true)])
  {
    assert !ShiftDown(SmallTable().shiftCodes, NewKeyboard().history);
  }

  /** It holds `A` and presses `b`: Shift is down for the `A` alone, nobody holds it to have
      it let go of, and the press does not type `b`. */
  lemma HeldCapitalMistypes()
    ensures var s := DeskKey(SmallKeymap(), SmallTable(), NewKeyboard(), 0, 'A' as nat, true);
            && TableFits(SmallTable(), SmallLevels()) && Inv(s) && B_KEY !in s.held
            && SmallKeymap().produces(
                 Corrected(SmallKeymap(), SmallTable(), s, B_KEY, 0, 'b' as nat).history, B_KEY) != 'b' as nat
  {
    CapitalPressed();
    DeskKeyKeeps(SmallKeymap(), SmallTable(), NewKeyboard(), 0, 'A' as nat, true);
    hide DeskKey, FixShift, Core;
    var s := DeskKey(SmallKeymap(), SmallTable(), NewKeyboard(), 0, 'A' as nat, true);
    assert SHIFT in s.down && SHIFT in SmallTable().shiftCodes && SHIFT !in s.held + {B_KEY};
    assert SmallTable().keycodes['b' as nat] == Place(B_KEY, 0);
    TypedSymbol(SmallLevels(), keysym => keysym < 128, SmallTable(), s, 'b' as nat);
  }
}
