/** The keyboard the two desks' clients share: what their key events make the compositor
    see (src/input.rs; KeyEvent is section 7.5.4 of RFC 6143).
 */
module Keyboards {
  import opened Options

  type Desk = i: int | 0 <= i < 2
  type Code = nat
  type Keysym = nat

  /** One change of one key, as it is sent. */
  datatype Transition = Transition(code: Code, down: bool)

  /** What the keymap's state says after the transitions it has been fed: which keysym a
      keycode produces, and whether Shift is depressed. Which keysyms are characters. */
  datatype Keymap = Keymap(
    produces: (seq<Transition>, Code) -> Keysym,
    shiftActive: seq<Transition> -> bool,
    isCharacter: Keysym -> bool)

  /** A keycode and the level of it that produces a keysym. */
  datatype Place = Place(code: Code, level: nat)

  /** What is read out of the keymap once. */
  datatype Table = Table(keycodes: map<Keysym, Place>, shiftCodes: seq<Code>)

  /** A correction made for a key: the Shift pressed, or the Shifts let go of, until it goes up. */
  datatype ShiftFix = Pressed(code: Code) | Released(codes: seq<Code>)

  datatype Keyboard = Keyboard(
    held: set<Code>,
    owners: seq<set<Code>>,
    fixes: map<Code, ShiftFix>,
    down: set<Code>,
    history: seq<Transition>)

  function NewKeyboard(): Keyboard {
    Keyboard({}, [{}, {}], map[], {}, [])
  }

  /** Only a change is sent: pressing what is down, or releasing what is up, sends nothing. */
  function SendKey(s: Keyboard, code: Code, down: bool): Keyboard {
    if down == (code in s.down) then s
    else s.(down := if down then s.down + {code} else s.down - {code},
            history := s.history + [Transition(code, down)])
  }

  function SendUp(s: Keyboard, codes: seq<Code>): Keyboard {
    if codes == [] then s else SendKey(SendUp(s, codes[..|codes| - 1]), codes[|codes| - 1], false)
  }

  /** Those of the codes held, pressed. */
  function PressHeld(s: Keyboard, codes: seq<Code>): Keyboard {
    if codes == [] then s
    else
      var t := PressHeld(s, codes[..|codes| - 1]);
      var last := codes[|codes| - 1];
      if last in t.held then SendKey(t, last, true) else t
  }

  function HeldOf(codes: seq<Code>, held: set<Code>): seq<Code> {
    if codes == [] then []
    else
      var last := codes[|codes| - 1];
      HeldOf(codes[..|codes| - 1], held) + (if last in held then [last] else [])
  }

  /** Shift pressed or let go so that the keycode types the keysym. */
  function FixShift(k: Keymap, t: Table, s: Keyboard, code: Code, level: nat, keysym: Keysym): Keyboard {
    if !k.isCharacter(keysym) || k.produces(s.history, code) == keysym then s
    else
      var shiftDown := k.shiftActive(s.history);
      if level == 1 && !shiftDown then
        if t.shiftCodes == [] then s
        else
          var pressed := SendKey(s, t.shiftCodes[0], true);
          pressed.(fixes := pressed.fixes[code := Pressed(t.shiftCodes[0])])
      else if level == 0 && shiftDown then
        var shifts := HeldOf(t.shiftCodes, s.held);
        if shifts == [] then s
        else
          var up := SendUp(s, shifts);
          up.(fixes := up.fixes[code := Released(shifts)])
      else s
  }

  /** The fixes that a Shift key let go of no longer holds left out. */
  function Retained(t: Table, fixes: map<Code, ShiftFix>, code: Code): map<Code, ShiftFix> {
    if code in t.shiftCodes then map f | f in fixes && fixes[f] != Pressed(code) :: fixes[f] else fixes
  }

  /** A key let go of, or lost by its client leaving: what was done for it is undone. */
  function Release(t: Table, s: Keyboard, code: Code): Keyboard {
    var fixes := Retained(t, s.fixes, code);
    var up := SendKey(s.(fixes := fixes), code, false);
    var without := up.(fixes := fixes - {code});
    if code !in fixes then without
    else
      match fixes[code]
      case Pressed(shift) => if shift in s.held then without else SendKey(without, shift, false)
      case Released(shifts) => PressHeld(without, shifts)
  }

  function LetGo(t: Table, s: Keyboard, code: Code): Keyboard {
    if code in s.held then Release(t, s.(held := s.held - {code}), code) else SendKey(s, code, false)
  }

  function Key(k: Keymap, t: Table, s: Keyboard, keysym: Keysym, down: bool): Keyboard {
    if keysym !in t.keycodes then s
    else
      var p := t.keycodes[keysym];
      if !down then LetGo(t, s, p.code)
      else if p.code in s.held then s
      else
        var holding := s.(held := s.held + {p.code});
        SendKey(FixShift(k, t, holding, p.code, p.level, keysym), p.code, true)
  }

  predicate Owned(s: Keyboard, code: Code) {
    exists i :: 0 <= i < |s.owners| && code in s.owners[i]
  }

  /** One desk's key event, where a release waits for the other desk's client to let go too. */
  function DeskKey(k: Keymap, t: Table, s: Keyboard, desk: Desk, keysym: Keysym, down: bool): Keyboard
    requires |s.owners| == 2
  {
    if keysym !in t.keycodes then Key(k, t, s, keysym, down)
    else
      var code := t.keycodes[keysym].code;
      if down then Key(k, t, s.(owners := s.owners[desk := s.owners[desk] + {code}]), keysym, true)
      else
        var disowned := s.(owners := s.owners[desk := s.owners[desk] - {code}]);
        if Owned(disowned, code) then disowned else Key(k, t, disowned, keysym, false)
  }

  /** Each element once, in some order. */
  predicate Enumerates(order: seq<Code>, codes: set<Code>) {
    && (forall i :: 0 <= i < |order| ==> order[i] in codes)
    && (forall c :: c in codes ==> c in order)
    && (forall i, j :: 0 <= i < j < |order| ==> order[i] != order[j])
  }

  /** The keys no other client owns let go of, in order. */
  function LetGoAll(t: Table, s: Keyboard, order: seq<Code>): Keyboard
    decreases |order|
  {
    if order == [] then s
    else
      var u := LetGoAll(t, s, order[..|order| - 1]);
      var code := order[|order| - 1];
      if Owned(u, code) then u else LetGo(t, u, code)
  }

  function ReleaseEach(t: Table, s: Keyboard, order: seq<Code>): Keyboard
    decreases |order|
  {
    if order == [] then s else Release(t, ReleaseEach(t, s, order[..|order| - 1]), order[|order| - 1])
  }

  function Disowned(s: Keyboard, desk: Desk): Keyboard
    requires |s.owners| == 2
  {
    s.(owners := s.owners[desk := {}])
  }

  function Deserted(s: Keyboard): bool
    requires |s.owners| == 2
  {
    s.owners[0] == {} && s.owners[1] == {}
  }

  /** A desk's client gone: what it held is let go of in whatever order its set is
      iterated, and then, with nobody left, whatever is still held. */
  function DeskLeft(t: Table, s: Keyboard, desk: Desk, order: seq<Code>, rest: seq<Code>): Keyboard
    requires |s.owners| == 2
  {
    var gone := LetGoAll(t, Disowned(s, desk), order);
    if Deserted(Disowned(s, desk)) then ReleaseEach(t, gone.(held := {}), rest) else gone
  }

  class Keys {
    const keymap: Keymap
    const table: Table
    var held: set<Code>
    var owners: seq<set<Code>>
    var fixes: map<Code, ShiftFix>
    /** What the compositor believes is down. */
    var down: set<Code>
    /** Transitions gathered until the call returns them. */
    var sent: seq<Transition>
    /** Every transition there has been. */
    ghost var history: seq<Transition>

    ghost function Model(): Keyboard
      reads this
    {
      Keyboard(held, owners, fixes, down, history)
    }

    /** Between calls nothing is waiting to be sent. */
    ghost predicate Idle()
      reads this
    {
      |owners| == 2 && sent == []
    }

    /** The history so far ends in what is to be sent of this call, which began at `start`. */
    ghost predicate Since(start: seq<Transition>)
      reads this
    {
      history == start + sent
    }

    constructor (keymap: Keymap, table: Table)
      ensures Idle() && Model() == NewKeyboard() && this.keymap == keymap && this.table == table
    {
      this.keymap, this.table := keymap, table;
      held, owners, fixes, down, sent, history := {}, [{}, {}], map[], {}, [], [];
    }

    method SendOne(code: Code, goDown: bool, ghost start: seq<Transition>)
      requires Since(start)
      modifies `down, `sent, `history
      ensures Since(start) && Model() == SendKey(old(Model()), code, goDown)
    {
      if goDown == (code in down) {
        return;
      }
      down := if goDown then down + {code} else down - {code};
      sent := sent + [Transition(code, goDown)];
      history := history + [Transition(code, goDown)];
    }

    method CorrectShift(code: Code, level: nat, keysym: Keysym, ghost start: seq<Transition>,
                        produced: Keysym, shiftDown: bool)
      requires Since(start)
      requires produced == keymap.produces(history, code) && shiftDown == keymap.shiftActive(history)
      modifies `fixes, `down, `sent, `history
      ensures Since(start) && Model() == FixShift(keymap, table, old(Model()), code, level, keysym)
    {
      if !keymap.isCharacter(keysym) || produced == keysym {
        return;
      }
      if level == 1 && !shiftDown {
        if table.shiftCodes != [] {
          SendOne(table.shiftCodes[0], true, start);
          fixes := fixes[code := Pressed(table.shiftCodes[0])];
        }
      } else if level == 0 && shiftDown {
        var shifts := [];
        for i := 0 to |table.shiftCodes|
          invariant shifts == HeldOf(table.shiftCodes[..i], held)
        {
          assert table.shiftCodes[..i + 1][..i] == table.shiftCodes[..i];
          if table.shiftCodes[i] in held {
            shifts := shifts + [table.shiftCodes[i]];
          }
        }
        assert table.shiftCodes[..|table.shiftCodes|] == table.shiftCodes;
        if shifts != [] {
          SendEachUp(shifts, start);
          fixes := fixes[code := Released(shifts)];
        }
      }
    }

    method SendEachUp(codes: seq<Code>, ghost start: seq<Transition>)
      requires Since(start)
      modifies `down, `sent, `history
      ensures Since(start) && Model() == SendUp(old(Model()), codes)
    {
      for i := 0 to |codes|
        invariant Since(start) && Model() == SendUp(old(Model()), codes[..i])
      {
        assert codes[..i + 1][..i] == codes[..i];
        SendOne(codes[i], false, start);
      }
      assert codes[..|codes|] == codes;
    }

    method PressEachHeld(codes: seq<Code>, ghost start: seq<Transition>)
      requires Since(start)
      modifies `down, `sent, `history
      ensures Since(start) && Model() == PressHeld(old(Model()), codes)
    {
      for i := 0 to |codes|
        invariant Since(start) && Model() == PressHeld(old(Model()), codes[..i])
      {
        assert codes[..i + 1][..i] == codes[..i];
        if codes[i] in held {
          SendOne(codes[i], true, start);
        }
      }
      assert codes[..|codes|] == codes;
    }

    method ReleaseKey(code: Code, ghost start: seq<Transition>)
      requires Since(start)
      modifies `fixes, `down, `sent, `history
      ensures Since(start) && Model() == Release(table, old(Model()), code)
    {
      if code in table.shiftCodes {
        fixes := map f | f in fixes && fixes[f] != Pressed(code) :: fixes[f];
      }
      SendOne(code, false, start);
      if code in fixes {
        var fix := fixes[code];
        fixes := fixes - {code};
        match fix
        case Pressed(shift) =>
          if shift !in held {
            SendOne(shift, false, start);
          }
        case Released(shifts) => PressEachHeld(shifts, start);
      } else {
        assert fixes - {code} == fixes;
      }
    }

    method LetGoOf(code: Code, ghost start: seq<Transition>)
      requires Since(start)
      modifies `held, `fixes, `down, `sent, `history
      ensures Since(start) && Model() == LetGo(table, old(Model()), code)
    {
      if code in held {
        held := held - {code};
        ReleaseKey(code, start);
      } else {
        SendOne(code, false, start);
      }
    }

    /** One desk's key event; the answer is what to send. What the keymap's state says is
        read as the transitions so far leave it. */
    method PressOrRelease(desk: Desk, keysym: Keysym, goDown: bool, produced: Keysym, shiftDown: bool)
      returns (out: seq<Transition>)
      requires Idle()
      requires keysym in table.keycodes ==> produced == keymap.produces(history, table.keycodes[keysym].code)
      requires shiftDown == keymap.shiftActive(history)
      modifies this
      ensures Idle() && Model() == DeskKey(keymap, table, old(Model()), desk, keysym, goDown)
      ensures history == old(history) + out
    {
      ghost var start := history;
      assert start == start + sent;
      if keysym !in table.keycodes {
        return [];
      }
      var place := table.keycodes[keysym];
      if goDown {
        owners := owners[desk := owners[desk] + {place.code}];
        if place.code !in held {
          held := held + {place.code};
          CorrectShift(place.code, place.level, keysym, start, produced, shiftDown);
          SendOne(place.code, true, start);
        }
      } else {
        owners := owners[desk := owners[desk] - {place.code}];
        if place.code in owners[0] || place.code in owners[1] {
          assert Owned(Model(), place.code);
          return [];
        }
        assert !Owned(Model(), place.code);
        LetGoOf(place.code, start);
      }
      out := sent;
      sent := [];
    }

    /** A client is gone: its keys are let go of, save those its neighbour is holding. */
    method Leave(desk: Desk) returns (out: seq<Transition>)
      requires Idle()
      modifies this
      ensures Idle() && history == old(history) + out
      ensures exists order, rest ::
                && Enumerates(order, old(owners[desk]))
                && Enumerates(rest, LetGoAll(table, Disowned(old(Model()), desk), order).held)
                && Model() == DeskLeft(table, old(Model()), desk, order, rest)
    {
      ghost var start := history;
      assert start == start + sent;
      var codes := owners[desk];
      owners := owners[desk := {}];
      ghost var order := LetGoOfAll(codes, start);
      ghost var gone := Model();
      ghost var rest := SomeOrder(held);
      if owners[0] == {} && owners[1] == {} {
        rest := ReleaseHeld(start);
      }
      out := sent;
      sent := [];
      assert Model() == DeskLeft(table, old(Model()), desk, order, rest);
    }

    method LetGoOfAll(codes: set<Code>, ghost start: seq<Transition>) returns (ghost order: seq<Code>)
      requires Since(start) && |owners| == 2
      modifies `held, `fixes, `down, `sent, `history
      ensures Since(start) && Enumerates(order, codes)
      ensures Model() == LetGoAll(table, old(Model()), order)
    {
      order := [];
      var left := codes;
      while left != {}
        invariant Since(start) && left <= codes && Enumerates(order, codes - left)
        invariant Model() == LetGoAll(table, old(Model()), order)
        decreases left
      {
        var code :| code in left;
        left := left - {code};
        EnumeratesMore(order, codes - left - {code}, code);
        assert codes - left == (codes - left - {code}) + {code};
        order := order + [code];
        assert order[..|order| - 1] + [code] == order;
        if !(code in owners[0] || code in owners[1]) {
          assert !Owned(Model(), code);
          LetGoOf(code, start);
        }
      }
      assert codes - {} == codes;
    }

    method ReleaseHeld(ghost start: seq<Transition>) returns (ghost rest: seq<Code>)
      requires Since(start)
      modifies `held, `fixes, `down, `sent, `history
      ensures Since(start) && Enumerates(rest, old(held))
      ensures Model() == ReleaseEach(table, old(Model()).(held := {}), rest)
    {
      rest := [];
      var left := held;
      held := {};
      while left != {}
        invariant Since(start) && left <= old(held) && Enumerates(rest, old(held) - left)
        invariant Model() == ReleaseEach(table, old(Model()).(held := {}), rest)
        decreases left
      {
        var code :| code in left;
        left := left - {code};
        EnumeratesMore(rest, old(held) - left - {code}, code);
        assert old(held) - left == (old(held) - left - {code}) + {code};
        rest := rest + [code];
        assert rest[..|rest| - 1] + [code] == rest;
        ReleaseKey(code, start);
      }
      assert old(held) - {} == old(held);
    }
  }

  lemma EnumeratesMore(order: seq<Code>, codes: set<Code>, code: Code)
    requires Enumerates(order, codes) && code !in codes
    ensures Enumerates(order + [code], codes + {code})
  {}

  ghost function SomeOrder(codes: set<Code>): (order: seq<Code>)
    ensures Enumerates(order, codes)
  {
    if codes == {} then []
    else
      var code :| code in codes;
      var order := SomeOrder(codes - {code}) + [code];
      EnumeratesMore(SomeOrder(codes - {code}), codes - {code}, code);
      assert codes - {code} + {code} == codes;
      order
  }
}
