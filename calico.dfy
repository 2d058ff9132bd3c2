/** The host-independent input events the interpreter accepts. */
module Calico {

  datatype CalicoEvent = KeyDown | KeyUp | Other

  /** The sixteen keypad keys, in the order whose ordinals index the keypad, and any other key. */
  datatype CalicoKey = Mk1 | Mk2 | Mk3 | Mk4 | Q | W | E | R | A | S | D | F | Z | X | C | V | Other

  /** `key as usize`: the declaration position of a keypad key. */
  function Ordinal(key: CalicoKey): (k: nat)
    requires key != CalicoKey.Other
    ensures k < 16
  {
    match key
    case Mk1 => 0x0
    case Mk2 => 0x1
    case Mk3 => 0x2
    case Mk4 => 0x3
    case Q => 0x4
    case W => 0x5
    case E => 0x6
    case R => 0x7
    case A => 0x8
    case S => 0x9
    case D => 0xA
    case F => 0xB
    case Z => 0xC
    case X => 0xD
    case C => 0xE
    case V => 0xF
  }
}
