/** The keypad of `src/driver/keypad.rs`: 16 key states and the table from host
    keycodes to key indices. */
module Keypad {
  /** The sixteen keycodes the table maps, and every other keycode. */
  datatype Keycode = A | Z | E | R | T | Y | U | I | O | P | Q | S | D | F | G | H | Other

  datatype Option<T> = None | Some(value: T)

  const KeyCount: nat := 16

  /** The match table of `press`: keycode to key index, `None` for the `_` arm. */
  function KeyIndex(k: Keycode): (r: Option<nat>)
    ensures r.Some? ==> r.value < KeyCount
    ensures r.None? <==> k == Other
  {
    match k
    case A => Some(0)
    case Z => Some(1)
    case E => Some(2)
    case R => Some(3)
    case T => Some(4)
    case Y => Some(5)
    case U => Some(6)
    case I => Some(7)
    case O => Some(8)
    case P => Some(9)
    case Q => Some(10)
    case S => Some(11)
    case D => Some(12)
    case F => Some(13)
    case G => Some(14)
    case H => Some(15)
    case Other => None
  }

  /** The keycode that drives key `i`: the table read backwards. */
  function KeyFor(i: nat): Keycode
    requires i < KeyCount
  {
    [A, Z, E, R, T, Y, U, I, O, P, Q, S, D, F, G, H][i]
  }

  /** The table is a bijection between the sixteen mapped keycodes and 0..15. */
  lemma KeyIndexBijective(k: Keycode, i: nat)
    requires i < KeyCount
    ensures KeyIndex(KeyFor(i)) == Some(i)
    ensures KeyIndex(k) == Some(i) ==> k == KeyFor(i)
  {
    match k
    case A => case Z => case E => case R => case T => case Y => case U => case I =>
    case O => case P => case Q => case S => case D => case F => case G => case H =>
    case Other =>
  }

  class Keypad {
    var keys: array<bool>

    ghost predicate Valid()
      reads this
    {
      keys.Length == KeyCount
    }

    /** `Keypad::new`: no key down. */
    constructor ()
      ensures Valid() && fresh(keys)
      ensures forall i :: 0 <= i < KeyCount ==> !keys[i]
    {
      keys := new bool[KeyCount](_ => false);
    }

    /** `is_pressed`: a read; an index past 15 panics. */
    method IsPressed(x: nat) returns (b: bool)
      requires Valid() && x < KeyCount
      ensures b == keys[x]
    {
      b := keys[x];
    }

    /** `press`: a mapped keycode sets its one key to `state`; any other keycode changes nothing. */
    method Press(keycode: Keycode, state: bool)
      requires Valid()
      modifies keys
      ensures KeyIndex(keycode).Some? ==> keys[..] == old(keys[..])[KeyIndex(keycode).value := state]
      ensures KeyIndex(keycode).None? ==> keys[..] == old(keys[..])
    {
      match keycode
      case A => keys[0] := state;
      case Z => keys[1] := state;
      case E => keys[2] := state;
      case R => keys[3] := state;
      case T => keys[4] := state;
      case Y => keys[5] := state;
      case U => keys[6] := state;
      case I => keys[7] := state;
      case O => keys[8] := state;
      case P => keys[9] := state;
      case Q => keys[10] := state;
      case S => keys[11] := state;
      case D => keys[12] := state;
      case F => keys[13] := state;
      case G => keys[14] := state;
      case H => keys[15] := state;
      case Other =>
    }
  }
}
