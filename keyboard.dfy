/** The key-state map of public/src/keyboard.mjs: which of the five game keys are held. */
module Keyboard {
  import opened Js

  /** The game keys: up, down, left (turn left), right (turn right) and fire. */
  datatype Key = U | D | L | R | F

  /** The order in which the state object lists its keys. */
  const KEYS: seq<Key> := [U, D, L, R, F]

  /** The DOM key code of each game key (arrows and space). */
  function KeyCode(k: Key): int {
    match k
    case U => 38
    case D => 40
    case L => 37
    case R => 39
    case F => 32
  }

  lemma InKeys(k: Key)
    ensures k in KEYS
  {
    match k
    case U => assert KEYS[0] == U;
    case D => assert KEYS[1] == D;
    case L => assert KEYS[2] == L;
    case R => assert KEYS[3] == R;
    case F => assert KEYS[4] == F;
  }

  /** KEY_CODES: the game key of a DOM key code, if it has one. */
  function KeyName(code: int): (r: Option<Key>)
    ensures r.None? <==> code !in {38, 40, 37, 39, 32}
    ensures r.Some? ==> KeyCode(r.value) == code
  {
    if code == 38 then Some(U)
    else if code == 40 then Some(D)
    else if code == 37 then Some(L)
    else if code == 39 then Some(R)
    else if code == 32 then Some(F)
    else None
  }

  /** KEY_CODES is a bijection between the five key codes and the five keys. */
  lemma KeyNameOfKeyCode(k: Key)
    ensures KeyName(KeyCode(k)) == Some(k)
  {
  }

  /** The state after a keydown (`down`) or keyup (`!down`) event with key code `code`. */
  function OnKey(state: map<Key, bool>, down: bool, code: int): (r: map<Key, bool>)
    ensures r.Keys == state.Keys + (if KeyName(code).Some? then {KeyName(code).value} else {})
    ensures forall k :: k in state && Some(k) != KeyName(code) ==> r[k] == state[k]
    ensures KeyName(code).Some? ==> r[KeyName(code).value] == down
    ensures KeyName(code).None? ==> r == state
  {
    match KeyName(code)
    case None => state
    case Some(name) => state[name := down]
  }

  /** Repeating the same key event leaves the state the first event produced. */
  lemma OnKeyIdempotent(state: map<Key, bool>, down: bool, code: int)
    ensures OnKey(OnKey(state, down, code), down, code) == OnKey(state, down, code)
  {
  }

  /** `pressed()`: every held key, mapped to 1. */
  function Pressed(state: map<Key, bool>): (p: map<Key, int>)
    ensures p.Keys == set k | k in state && state[k]
    ensures forall k :: k in p ==> p[k] == 1
  {
    map k | k in state && state[k] :: 1
  }

  /** The keys held in `state`, listed in the order of `keys`. */
  function PressedAmong(state: map<Key, bool>, keys: seq<Key>): (p: map<Key, int>)
    ensures p.Keys == set k | k in keys && k in state && state[k]
    ensures forall k :: k in p ==> p[k] == 1
  {
    if keys == [] then map[]
    else
      var p := PressedAmong(state, keys[..|keys| - 1]);
      var k := keys[|keys| - 1];
      assert keys == keys[..|keys| - 1] + [k];
      if k in state && state[k] then p[k := 1] else p
  }

  class Keyboard {
    var state: map<Key, bool>

    /** The state object always holds exactly the five game keys. */
    ghost predicate Valid()
      reads this
    {
      forall k: Key :: k in state
    }

    /** Initially no key is held. */
    constructor ()
      ensures Valid()
      ensures forall k: Key :: !state[k]
      ensures Pressed(state) == map[]
    {
      state := map[U := false, D := false, L := false, R := false, F := false];
      new;
      forall k: Key ensures k in state && !state[k] {
        match k
        case U => case D => case L => case R => case F =>
      }
    }

    method OnKeyEvent(down: bool, code: int)
      requires Valid()
      modifies this
      ensures Valid()
      ensures state == OnKey(old(state), down, code)
    {
      var name := KeyName(code);
      if name.None? {
        return;
      }
      state := state[name.value := down];
    }

    /** `pressed()` builds a fresh map in a loop over the state's keys. */
    method GetPressed() returns (p: map<Key, int>)
      requires Valid()
      ensures p == Pressed(state)
    {
      p := map[];
      var i := 0;
      while i < |KEYS|
        invariant 0 <= i <= |KEYS|
        invariant p == PressedAmong(state, KEYS[..i])
      {
        assert KEYS[..i + 1][..i] == KEYS[..i];
        var k := KEYS[i];
        if state[k] {
          p := p[k := 1];
        }
        i := i + 1;
      }
      assert KEYS[..i] == KEYS;
      forall k: Key ensures k in KEYS { InKeys(k); }
    }
  }
}
