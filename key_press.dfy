/** Dispatch of one key transition (`kbscan_press` and `hardware_hotkey` in
    board/system76/common/kbscan.c).

    A transition is classified by the type nibble of its key code and either
    accepted or rejected; on rejection the scanner puts the matrix bit back so
    that the transition is offered again on the next pass. The calls the
    dispatcher makes into other parts of the firmware (scancodes to the
    keyboard controller, SCIs and wake-ups to the power-management channel,
    GPIO toggles and keyboard-backlight actions) are recorded as events. */
module KeyPress {
  import opened Platform
  import opened Keymap

  /** The output pins a hotkey toggles. */
  datatype Pin = BacklightEnable | CameraEnable

  /** The keyboard-backlight entry points a hotkey calls. */
  datatype KbledAction = Step | Color | Down | Up | Toggle

  /** One call into another part of the firmware. */
  datatype Event =
    | Scancode(code: Key, pressed: bool)  // kbc_scancode
    | RaiseSci(number: bv8)               // pmc_sci, accepted or not
    | SoftwareWake                        // pmc_swi
    | TogglePin(pin: Pin)                 // gpio_set(pin, !gpio_get(pin))
    | Kbled(action: KbledAction)          // kbled_hotkey_*

  /** What the dispatcher reads about the rest of the system. `sciAccepted`
      is the answer `pmc_sci` gives when it is called. */
  datatype Host = Host(lidOpen: bool, power: PowerState, acpiOs: bool, sciAccepted: bool)

  /** Process-wide flags the dispatcher updates: `keymap_fnlock`,
      `sci_extra` and `fan_max`. */
  datatype Flags = Flags(fnlock: bool, sciExtra: bv8, fanMax: bool)

  /** Scanner settings other modules set: `kbscan_enabled` and
      `camera_switch_enabled`. */
  datatype Switches = Switches(enabled: bool, cameraSwitchEnabled: bool)

  /** The result of one dispatch: accepted or not, the layer slot (None for a
      NULL `layer` argument), the new flags and the calls made, in order. */
  datatype Outcome = Outcome(accepted: bool, layer: Option<bv8>, flags: Flags, events: seq<Event>)

  /** `hardware_hotkey(key)`: the side effect of an SCI hotkey. */
  function HardwareHotkey(key: Key, flags: Flags, sw: Switches): (Flags, seq<Event>)
  {
    if key == DisplayToggle then (flags, [TogglePin(BacklightEnable)])
    else if key == CameraToggle then (flags, if sw.cameraSwitchEnabled then [TogglePin(CameraEnable)] else [])
    else if key == FanToggle then (flags.(fanMax := !flags.fanMax), [])
    else if key == KbdBkl then (flags, [Kbled(Step)])
    else if key == KbdColor then (flags, [Kbled(Color)])
    else if key == KbdDown then (flags, [Kbled(Down)])
    else if key == KbdUp then (flags, [Kbled(Up)])
    else if key == KbdToggle then (flags, [Kbled(Toggle)])
    else (flags, [])
  }

  /** The wake-up that precedes every dispatch. */
  function WakeEvents(pressed: bool, host: Host): seq<Event>
  {
    if pressed && host.lidOpen && host.power == S3 then [SoftwareWake] else []
  }

  /** `kbscan_press(key, pressed, layer)`. */
  function Press(key: Key, pressed: bool, layer: Option<bv8>, flags: Flags, sw: Switches, host: Host): Outcome
  {
    var o := AfterWake(key, pressed, layer, flags, sw, host);
    o.(events := WakeEvents(pressed, host) + o.events)
  }

  /** What `kbscan_press` does after the wake-up: toggle Fn-Lock on its
      press, otherwise dispatch on the key type. */
  function AfterWake(key: Key, pressed: bool, layer: Option<bv8>, flags: Flags, sw: Switches, host: Host): Outcome
  {
    if key == FnLock && pressed then
      Outcome(true, layer, flags.(fnlock := !flags.fnlock), [])
    else
      Dispatch(key, pressed, layer, flags, sw, host)
  }

  /** The `switch (key & KT_MASK)` part of `kbscan_press`. */
  function Dispatch(key: Key, pressed: bool, layer: Option<bv8>, flags: Flags, sw: Switches, host: Host): Outcome
  {
    match TypeOf(key)
    case Normal =>
      Outcome(true, layer, flags, if sw.enabled then [Scancode(key, pressed)] else [])
    case Layer =>
      if layer.None? then Outcome(false, layer, flags, [])
      else Outcome(true, Some(if pressed then 1 else 0), flags, [])
    case Combo =>
      ComboPress(Payload(key), pressed, layer, flags, sw, host)
    case Sci =>
      SciPress(key, pressed, layer, flags, sw, host)
    case SciExtra =>
      SciExtraPress(key, pressed, layer, flags, sw, host)
    case Unassigned =>
      Outcome(true, layer, flags, [])
  }

  /** The `KT_SCI` case: on a press, the SCI goes to an ACPI OS if one is
      present, and the hotkey runs unless that SCI was refused. */
  function SciPress(key: Key, pressed: bool, layer: Option<bv8>, flags: Flags, sw: Switches, host: Host): Outcome
  {
    if !pressed then Outcome(true, layer, flags, [])
    else if host.acpiOs && !host.sciAccepted then Outcome(false, layer, flags, [RaiseSci(Payload(key))])
    else
      var sci := if host.acpiOs then [RaiseSci(Payload(key))] else [];
      var (f, hot) := HardwareHotkey(key, flags, sw);
      Outcome(true, layer, f, sci + hot)
  }

  /** The `KT_SCI_EXTRA` case: as `KT_SCI`, with the fixed SCI number and the
      key's payload left in `sci_extra` for the OS. */
  function SciExtraPress(key: Key, pressed: bool, layer: Option<bv8>, flags: Flags, sw: Switches, host: Host): Outcome
  {
    if !pressed then Outcome(true, layer, flags, [])
    else
      var flags1 := if host.acpiOs then flags.(sciExtra := Payload(key)) else flags;
      if host.acpiOs && !host.sciAccepted then Outcome(false, layer, flags1, [RaiseSci(SciExtraNumber)])
      else
        var sci := if host.acpiOs then [RaiseSci(SciExtraNumber)] else [];
        var (f, hot) := HardwareHotkey(key, flags1, sw);
        Outcome(true, layer, f, sci + hot)
  }

  /** The combination keys, `switch (key & 0xFF)` under `KT_COMBO`. */
  function ComboPress(combo: bv8, pressed: bool, layer: Option<bv8>, flags: Flags, sw: Switches, host: Host): Outcome
  {
    if combo == ComboDisplayMode then
      Outcome(true, layer, flags, if sw.enabled then DisplayModeCodes(pressed) else [])
    else if combo == ComboPrintScreen then
      Outcome(true, layer, flags, if sw.enabled then PrintScreenCodes(pressed) else [])
    else if combo == ComboPause then
      Outcome(true, layer, flags, if sw.enabled then PauseCodes(pressed) else [])
    else if combo == ComboTouchpad then
      var code := if sw.enabled then [Scancode(ExtendedE0 | 0x63, pressed)] else [];
      if pressed && host.acpiOs then
        Outcome(host.sciAccepted, layer, flags, code + [RaiseSci(0x0A)])
      else
        Outcome(true, layer, flags, code)
    else
      Outcome(true, layer, flags, [])
  }

  function DisplayModeCodes(pressed: bool): seq<Event>
  {
    if pressed then [Scancode(LeftSuper, true), Scancode(KeyP, true), Scancode(KeyP, false)]
    else [Scancode(LeftSuper, false)]
  }

  function PrintScreenCodes(pressed: bool): seq<Event>
  {
    if pressed then [Scancode(ExtendedE0 | 0x12, true), Scancode(ExtendedE0 | 0x7C, true)]
    else [Scancode(ExtendedE0 | 0x7C, false), Scancode(ExtendedE0 | 0x12, false)]
  }

  function PauseCodes(pressed: bool): seq<Event>
  {
    if pressed then
      [Scancode(0xE1, true), Scancode(0x14, true), Scancode(0x77, true),
       Scancode(0xE1, true), Scancode(0x14, false), Scancode(0x77, false)]
    else []
  }

  /** A transition is rejected exactly when it is not a Fn-Lock press and
      either it is a Fn key with no layer slot, or it is the press of an SCI,
      SCI_EXTRA or touchpad key while an ACPI OS is present and `pmc_sci`
      refuses. */
  lemma PressRejectedIff(key: Key, pressed: bool, layer: Option<bv8>, flags: Flags, sw: Switches, host: Host)
    ensures !Press(key, pressed, layer, flags, sw, host).accepted <==>
      !(key == FnLock && pressed) &&
      ((TypeOf(key) == Layer && layer.None?) ||
       (pressed && host.acpiOs && !host.sciAccepted &&
        (TypeOf(key) == Sci || TypeOf(key) == SciExtra ||
         (TypeOf(key) == Combo && Payload(key) == ComboTouchpad))))
  {
  }

  /** Only a Fn-Lock press toggles `keymap_fnlock`, and it does nothing else
      but the wake-up. */
  lemma FnLockToggles(key: Key, pressed: bool, layer: Option<bv8>, flags: Flags, sw: Switches, host: Host)
    ensures var o := Press(key, pressed, layer, flags, sw, host);
      (o.flags.fnlock != flags.fnlock <==> key == FnLock && pressed) &&
      (key == FnLock && pressed ==>
        o.accepted && o.layer == layer && o.flags == flags.(fnlock := !flags.fnlock) &&
        o.events == WakeEvents(pressed, host))
  {
  }

  /** A Fn key with a layer slot selects layer 1 on press and layer 0 on
      release; no other key type writes the slot. */
  lemma FnSelectsLayer(key: Key, pressed: bool, layer: Option<bv8>, flags: Flags, sw: Switches, host: Host)
    ensures var o := Press(key, pressed, layer, flags, sw, host);
      (o.layer != layer ==> TypeOf(key) == Layer) &&
      (TypeOf(key) == Layer && layer.Some? && !(key == FnLock && pressed) ==>
        o.accepted && o.layer == Some(if pressed then 1 else 0))
  {
  }

  /** The press of an SCI or SCI_EXTRA key is accepted exactly when no ACPI
      OS is present or the SCI goes through, and a refused SCI runs no
      hotkey: the fan override and the pins stay as they were. */
  lemma SciHotkeyGated(key: Key, layer: Option<bv8>, flags: Flags, sw: Switches, host: Host)
    requires TypeOf(key) == Sci || TypeOf(key) == SciExtra
    ensures var o := Press(key, true, layer, flags, sw, host);
      (o.accepted <==> !host.acpiOs || host.sciAccepted) &&
      (!o.accepted ==> o.flags.fanMax == flags.fanMax &&
                       forall e :: e in o.events ==> e.SoftwareWake? || e.RaiseSci?) &&
      (o.accepted && key == FanToggle ==> o.flags.fanMax == !flags.fanMax)
  {
  }

  /** Releasing an SCI or SCI_EXTRA key does nothing and is accepted. */
  lemma SciReleaseIsNoOp(key: Key, layer: Option<bv8>, flags: Flags, sw: Switches, host: Host)
    requires TypeOf(key) == Sci || TypeOf(key) == SciExtra
    ensures Press(key, false, layer, flags, sw, host) == Outcome(true, layer, flags, [])
  {
  }

  /** With `kbscan_enabled` clear no scancode reaches the keyboard
      controller, whatever the key. */
  lemma NoScancodesWhenDisabled(key: Key, pressed: bool, layer: Option<bv8>, flags: Flags, sw: Switches, host: Host)
    requires !sw.enabled
    ensures forall e :: e in Press(key, pressed, layer, flags, sw, host).events ==> !e.Scancode?
  {
  }

  /** The wake-up comes first, and a press is the only thing that wakes a
      suspended machine with the lid open. */
  lemma WakeComesFirst(key: Key, pressed: bool, layer: Option<bv8>, flags: Flags, sw: Switches, host: Host)
    ensures var o := Press(key, pressed, layer, flags, sw, host);
      var wake := WakeEvents(pressed, host);
      |wake| <= |o.events| && o.events[..|wake|] == wake &&
      (SoftwareWake in o.events <==> pressed && host.lidOpen && host.power == S3)
  {
    var wake := WakeEvents(pressed, host);
    if !(key == FnLock && pressed) {
      var d := Dispatch(key, pressed, layer, flags, sw, host);
      DispatchNeverWakes(key, pressed, layer, flags, sw, host);
      assert Press(key, pressed, layer, flags, sw, host).events == wake + d.events;
    }
  }

  lemma DispatchNeverWakes(key: Key, pressed: bool, layer: Option<bv8>, flags: Flags, sw: Switches, host: Host)
    ensures SoftwareWake !in Dispatch(key, pressed, layer, flags, sw, host).events
  {
    match TypeOf(key)
    case Combo => ComboNeverWakes(Payload(key), pressed, layer, flags, sw, host);
    case Sci => HotkeyNeverWakes(key, flags, sw);
    case SciExtra =>
      HotkeyNeverWakes(key, if host.acpiOs then flags.(sciExtra := Payload(key)) else flags, sw);
    case _ =>
  }

  lemma HotkeyNeverWakes(key: Key, flags: Flags, sw: Switches)
    ensures SoftwareWake !in HardwareHotkey(key, flags, sw).1
  {
  }

  lemma ComboNeverWakes(combo: bv8, pressed: bool, layer: Option<bv8>, flags: Flags, sw: Switches, host: Host)
    ensures SoftwareWake !in ComboPress(combo, pressed, layer, flags, sw, host).events
  {
  }

  /** Print-screen sends E0 12 then E0 7C down on press and the same codes up
      in reverse order on release. */
  lemma PrintScreenSequence(layer: Option<bv8>, flags: Flags, sw: Switches, host: Host)
    requires sw.enabled
    ensures Press(PrintScreen, true, layer, flags, sw, host).events ==
      WakeEvents(true, host) + [Scancode(ExtendedE0 | 0x12, true), Scancode(ExtendedE0 | 0x7C, true)]
    ensures Press(PrintScreen, false, layer, flags, sw, host).events ==
      [Scancode(ExtendedE0 | 0x7C, false), Scancode(ExtendedE0 | 0x12, false)]
  {
  }

  /** Pause sends its six codes on press and nothing on release. */
  lemma PauseSequence(layer: Option<bv8>, flags: Flags, sw: Switches, host: Host)
    requires sw.enabled
    ensures Press(Pause, true, layer, flags, sw, host).events ==
      WakeEvents(true, host) +
      [Scancode(0xE1, true), Scancode(0x14, true), Scancode(0x77, true),
       Scancode(0xE1, true), Scancode(0x14, false), Scancode(0x77, false)]
    ensures Press(Pause, false, layer, flags, sw, host).events == []
  {
  }

  /** Each hotkey code has exactly one action, looked up by the whole code. */
  lemma HotkeyActions(key: Key, flags: Flags, sw: Switches)
    ensures var (f, ev) := HardwareHotkey(key, flags, sw);
      |ev| <= 1 && f.fnlock == flags.fnlock && f.sciExtra == flags.sciExtra &&
      (f.fanMax != flags.fanMax <==> key == FanToggle) &&
      (ev == [TogglePin(BacklightEnable)] <==> key == DisplayToggle) &&
      (ev == [TogglePin(CameraEnable)] <==> key == CameraToggle && sw.cameraSwitchEnabled) &&
      (ev == [Kbled(Step)] <==> key == KbdBkl) &&
      (ev == [Kbled(Color)] <==> key == KbdColor) &&
      (ev == [Kbled(Down)] <==> key == KbdDown) &&
      (ev == [Kbled(Up)] <==> key == KbdUp) &&
      (ev == [Kbled(Toggle)] <==> key == KbdToggle)
  {
  }
}
