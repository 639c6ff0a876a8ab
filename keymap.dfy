/** Key codes as the keyboard scanner sees them (common/keymap.h).

    A key code is 16 bits wide: the top nibble is its type (a plain
    scancode, the Fn layer key, a combination, an ACPI SCI, or an SCI with
    an extra payload byte) and the low byte its payload. The header that
    defines the named codes is not part of this model; the values below
    follow its layout (type in bits 12..15, payload in bits 0..7). */
module Keymap {

  type Key = bv16

  const TypeMask: Key := 0xF000
  const TypeNormal: Key := 0x0000
  const TypeFn: Key := 0x1000
  const TypeCombo: Key := 0x2000
  const TypeSci: Key := 0x4000
  const TypeSciExtra: Key := 0x8000

  /** Flag of the extended (E0-prefixed) scancodes. */
  const ExtendedE0: Key := 0x0100

  /** The SCI number raised for every SCI_EXTRA key; the key's own payload
      travels in `sci_extra`. */
  const SciExtraNumber: bv8 := 0x50

  // Payloads of the combination keys.
  const ComboDisplayMode: bv8 := 1
  const ComboPrintScreen: bv8 := 2
  const ComboPause: bv8 := 3
  const ComboTouchpad: bv8 := 4

  // Named key codes.
  const LeftSuper: Key := ExtendedE0 | 0x1F
  const KeyP: Key := 0x4D
  const Fn: Key := TypeFn
  const FnLock: Key := TypeFn | 0x01
  const DisplayMode: Key := TypeCombo | 1
  const PrintScreen: Key := TypeCombo | 2
  const Pause: Key := TypeCombo | 3
  const Touchpad: Key := TypeCombo | 4
  const CameraToggle: Key := TypeSci | 0x13
  const AirplaneMode: Key := TypeSci | 0x14
  const Suspend: Key := TypeSci | 0x15
  const DisplayToggle: Key := TypeSci | 0x16
  const MicMute: Key := TypeSci | 0x17
  const KbdBkl: Key := TypeSciExtra | 0x01
  const KbdColor: Key := TypeSciExtra | 0x02
  const KbdDown: Key := TypeSciExtra | 0x03
  const KbdUp: Key := TypeSciExtra | 0x04
  const KbdToggle: Key := TypeSciExtra | 0x05
  const FanToggle: Key := TypeSciExtra | 0x06

  /** The cases of `switch (key & KT_MASK)`; `Unassigned` is every other
      type nibble, which no case handles. */
  datatype KeyType = Normal | Layer | Combo | Sci | SciExtra | Unassigned

  function TypeOf(key: Key): KeyType
  {
    var t := key & TypeMask;
    if t == TypeNormal then Normal
    else if t == TypeFn then Layer
    else if t == TypeCombo then Combo
    else if t == TypeSci then Sci
    else if t == TypeSciExtra then SciExtra
    else Unassigned
  }

  /** `(uint8_t)(key & 0xFF)` */
  function Payload(key: Key): bv8
  {
    (key & 0xFF) as bv8
  }

  /** The keys that never auto-repeat. */
  const NonRepeating: set<Key> :=
    {AirplaneMode, CameraToggle, DisplayToggle, FanToggle, KbdBkl, KbdColor, KbdToggle,
     MicMute, Pause, Suspend, Touchpad, FnLock}

  /** `key_should_repeat` */
  function ShouldRepeat(key: Key): bool
  {
    key !in NonRepeating
  }

  /** Every plain scancode repeats, and so do the backlight brightness keys;
      only the listed hotkeys, combinations and Fn-Lock do not. */
  lemma RepeatingKeys(key: Key)
    ensures TypeOf(key) == Normal ==> ShouldRepeat(key)
    ensures ShouldRepeat(KbdDown) && ShouldRepeat(KbdUp)
    ensures !ShouldRepeat(Pause) && !ShouldRepeat(Touchpad) && !ShouldRepeat(FnLock)
  {
    if key in NonRepeating {
      NoNormalHotkey(key);
    }
  }

  lemma NoNormalHotkey(key: Key)
    requires key in NonRepeating
    ensures TypeOf(key) != Normal
  {
  }
}
