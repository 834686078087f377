/** The translation tables: HID usage codes and modifier bits to Linux keycodes. */
module Keymap {
  import opened Bytes

  /** Keycode of a HID usage code; 0 when the code is unmapped. */
  function HidToLinux(hid: byte): nat {
    if hid < 0x1E then Letters(hid)
    else if hid < 0x3A then DigitsAndPunctuation(hid)
    else if hid < 0x53 then FunctionAndNavigation(hid)
    else if hid < 0x64 then Keypad(hid)
    else MiscAndExtended(hid)
  }

  function Letters(hid: byte): (keycode: nat)
    ensures keycode != 0 ==> LinuxToHid(keycode) == hid
  {
    match hid
    case 0x04 => 30 case 0x05 => 48 case 0x06 => 46 case 0x07 => 32
    case 0x08 => 18 case 0x09 => 33 case 0x0A => 34 case 0x0B => 35
    case 0x0C => 23 case 0x0D => 36 case 0x0E => 37 case 0x0F => 38
    case 0x10 => 50 case 0x11 => 49 case 0x12 => 24 case 0x13 => 25
    case 0x14 => 16 case 0x15 => 19 case 0x16 => 31 case 0x17 => 20
    case 0x18 => 22 case 0x19 => 47 case 0x1A => 17 case 0x1B => 45
    case 0x1C => 21 case 0x1D => 44
    case _ => 0
  }

  function DigitsAndPunctuation(hid: byte): (keycode: nat)
    ensures keycode != 0 ==> LinuxToHid(keycode) == if hid == 0x32 then 0x31 else hid
  {
    match hid
    case 0x1E => 2 case 0x1F => 3 case 0x20 => 4 case 0x21 => 5
    case 0x22 => 6 case 0x23 => 7 case 0x24 => 8 case 0x25 => 9
    case 0x26 => 10 case 0x27 => 11 case 0x28 => 28 case 0x29 => 1
    case 0x2A => 14 case 0x2B => 15 case 0x2C => 57 case 0x2D => 12
    case 0x2E => 13 case 0x2F => 26 case 0x30 => 27 case 0x31 => 43
    case 0x32 => 43 case 0x33 => 39 case 0x34 => 40 case 0x35 => 41
    case 0x36 => 51 case 0x37 => 52 case 0x38 => 53 case 0x39 => 58
    case _ => 0
  }

  function FunctionAndNavigation(hid: byte): (keycode: nat)
    ensures keycode != 0 ==> LinuxToHid(keycode) == hid
  {
    match hid
    case 0x3A => 59 case 0x3B => 60 case 0x3C => 61 case 0x3D => 62
    case 0x3E => 63 case 0x3F => 64 case 0x40 => 65 case 0x41 => 66
    case 0x42 => 67 case 0x43 => 68 case 0x44 => 87 case 0x45 => 88
    case 0x46 => 99 case 0x47 => 70 case 0x48 => 119 case 0x49 => 110
    case 0x4A => 102 case 0x4B => 104 case 0x4C => 111 case 0x4D => 107
    case 0x4E => 109 case 0x4F => 106 case 0x50 => 105 case 0x51 => 108
    case 0x52 => 103
    case _ => 0
  }

  function Keypad(hid: byte): (keycode: nat)
    ensures keycode != 0 ==> LinuxToHid(keycode) == hid
  {
    match hid
    case 0x53 => 69 case 0x54 => 98 case 0x55 => 55 case 0x56 => 74
    case 0x57 => 78 case 0x58 => 96 case 0x59 => 79 case 0x5A => 80
    case 0x5B => 81 case 0x5C => 75 case 0x5D => 76 case 0x5E => 77
    case 0x5F => 71 case 0x60 => 72 case 0x61 => 73 case 0x62 => 82
    case 0x63 => 83
    case _ => 0
  }

  function MiscAndExtended(hid: byte): (keycode: nat)
    ensures keycode != 0 ==> LinuxToHid(keycode) == hid
  {
    match hid
    case 0x64 => 86 case 0x65 => 127 case 0x66 => 116 case 0x67 => 117
    case 0x68 => 183 case 0x69 => 184 case 0x6A => 185 case 0x6B => 186
    case 0x6C => 187 case 0x6D => 188 case 0x6E => 189 case 0x6F => 190
    case 0x70 => 191 case 0x71 => 192 case 0x72 => 193 case 0x73 => 194
    case _ => 0
  }

  /** The HID code a keycode is chiefly produced by; 0 when there is none. */
  function LinuxToHid(keycode: nat): byte {
    if keycode < 56 then LowKeycodes(keycode) else HighKeycodes(keycode)
  }

  function LowKeycodes(keycode: nat): byte {
    match keycode
    case 1 => 0x29 case 2 => 0x1E case 3 => 0x1F case 4 => 0x20
    case 5 => 0x21 case 6 => 0x22 case 7 => 0x23 case 8 => 0x24
    case 9 => 0x25 case 10 => 0x26 case 11 => 0x27 case 12 => 0x2D
    case 13 => 0x2E case 14 => 0x2A case 15 => 0x2B case 16 => 0x14
    case 17 => 0x1A case 18 => 0x08 case 19 => 0x15 case 20 => 0x17
    case 21 => 0x1C case 22 => 0x18 case 23 => 0x0C case 24 => 0x12
    case 25 => 0x13 case 26 => 0x2F case 27 => 0x30 case 28 => 0x28
    case 30 => 0x04 case 31 => 0x16 case 32 => 0x07 case 33 => 0x09
    case 34 => 0x0A case 35 => 0x0B case 36 => 0x0D case 37 => 0x0E
    case 38 => 0x0F case 39 => 0x33 case 40 => 0x34 case 41 => 0x35
    case 43 => 0x31 case 44 => 0x1D case 45 => 0x1B case 46 => 0x06
    case 47 => 0x19 case 48 => 0x05 case 49 => 0x11 case 50 => 0x10
    case 51 => 0x36 case 52 => 0x37 case 53 => 0x38 case 55 => 0x55
    case _ => 0
  }

  function HighKeycodes(keycode: nat): byte {
    match keycode
    case 57 => 0x2C case 58 => 0x39 case 59 => 0x3A case 60 => 0x3B
    case 61 => 0x3C case 62 => 0x3D case 63 => 0x3E case 64 => 0x3F
    case 65 => 0x40 case 66 => 0x41 case 67 => 0x42 case 68 => 0x43
    case 69 => 0x53 case 70 => 0x47 case 71 => 0x5F case 72 => 0x60
    case 73 => 0x61 case 74 => 0x56 case 75 => 0x5C case 76 => 0x5D
    case 77 => 0x5E case 78 => 0x57 case 79 => 0x59 case 80 => 0x5A
    case 81 => 0x5B case 82 => 0x62 case 83 => 0x63 case 86 => 0x64
    case 87 => 0x44 case 88 => 0x45 case 96 => 0x58 case 98 => 0x54
    case 99 => 0x46 case 102 => 0x4A case 103 => 0x52 case 104 => 0x4B
    case 105 => 0x50 case 106 => 0x4F case 107 => 0x4D case 108 => 0x51
    case 109 => 0x4E case 110 => 0x49 case 111 => 0x4C case 116 => 0x66
    case 117 => 0x67 case 119 => 0x48 case 127 => 0x65 case 183 => 0x68
    case 184 => 0x69 case 185 => 0x6A case 186 => 0x6B case 187 => 0x6C
    case 188 => 0x6D case 189 => 0x6E case 190 => 0x6F case 191 => 0x70
    case 192 => 0x71 case 193 => 0x72 case 194 => 0x73
    case _ => 0
  }

  /** Keycode of modifier bit `bit`. */
  function ModifierKeycode(bit: nat): nat
    requires bit < 8
  {
    match bit
    case 0 => 29 case 1 => 42 case 2 => 56 case 3 => 125
    case 4 => 97 case 5 => 54 case 6 => 100 case _ => 126
  }

  /** The table is invertible up to the one doubled key: 0x32 shares the keycode of 0x31. */
  lemma HidToLinuxInverse(hid: byte)
    requires HidToLinux(hid) != 0
    ensures hid != 0 && LinuxToHid(HidToLinux(hid)) == if hid == 0x32 then 0x31 else hid
  {
  }

  /** Two codes share a keycode only when they are the same code or the pair 0x31 / 0x32. */
  lemma HidToLinuxNearlyInjective(a: byte, b: byte)
    requires HidToLinux(a) == HidToLinux(b) != 0
    ensures a == b || {a, b} == {0x31, 0x32}
  {
  }

  /** No keycode belongs both to a modifier bit and to a HID code, and bits never share one. */
  lemma ModifierKeycodesDisjoint(bit: nat, other: nat, hid: byte)
    requires bit < 8 && other < 8
    ensures ModifierKeycode(bit) != 0 && ModifierKeycode(bit) != HidToLinux(hid)
    ensures ModifierKeycode(bit) == ModifierKeycode(other) ==> bit == other
  {
    hide HidToLinux;
    if HidToLinux(hid) != 0 {
      HidToLinuxInverse(hid);
    }
  }

  /** The rows of the keyboard: neighbouring keys have neighbouring keycodes. */
  lemma LetterRows(i: nat)
    ensures i < 10 ==> HidToLinux("qwertyuiop"[i] as int - 'a' as int + 4) == 16 + i
    ensures i < 9 ==> HidToLinux("asdfghjkl"[i] as int - 'a' as int + 4) == 30 + i
    ensures i < 7 ==> HidToLinux("zxcvbnm"[i] as int - 'a' as int + 4) == 44 + i
  {
    hide DigitsAndPunctuation, FunctionAndNavigation, Keypad, MiscAndExtended;
  }

  /** Digits 1 to 9 and 0, the keys F1 to F10, and the modifiers from the left control to the right meta key. */
  lemma OtherRows(i: nat)
    ensures i < 10 ==> HidToLinux(0x1E + i) == 2 + i && HidToLinux(0x3A + i) == 59 + i
    ensures i < 8 ==> ModifierKeycode(i) == [29, 42, 56, 125, 97, 54, 100, 126][i]
  {
    hide Letters, Keypad, MiscAndExtended;
  }
}
