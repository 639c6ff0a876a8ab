/** The keyboard scanner of board/system76/common/kbscan.c as the firmware
    runs it: process-wide arrays and flags updated in place by
    `kbscan_event`, row by row and column by column, and `kbscan_press`
    updating the flags it owns. Each method is proved to leave the state
    that the functions of modules KeyPress and Scan describe. */
module KbScan {
  import opened Bits
  import opened Platform
  import opened Keymap
  import opened KeyPress
  import opened Ghost
  import opened Scan

  class Scanner {
    const matrix: array<bv8>      // kbscan_matrix
    const ghosts: array<bool>     // kbscan_ghost
    const lastLayer: array<bv8>   // kbscan_last_layer, row by row
    var layer: bv8                // kbscan_layer
    var debounce: Debounce        // debounce, debounce_time
    var repeat: Repeat            // repeat, repeat_key, repeat_key_time, repeat_start
    var escHeld: bool             // kbscan_esc_held
    var fnHeld: bool              // kbscan_fn_held
    var flags: Flags              // keymap_fnlock, sci_extra, fan_max
    var events: seq<Event>        // the calls made into other modules, in order

    /** One ghost flag per row and one cached layer per cell. */
    ghost predicate Valid()
      reads this
    {
      ghosts.Length == matrix.Length && lastLayer.Length == matrix.Length * Columns &&
      lastLayer != matrix && ghosts as object != matrix && ghosts as object != lastLayer
    }

    /** The scanner state as module Scan describes it. */
    ghost function State(): (kb: Kb)
      reads this, matrix, ghosts, lastLayer
      requires Valid()
      ensures Fits(kb, matrix.Length)
    {
      Kb(matrix[..], ghosts[..], lastLayer[..], layer, debounce, repeat, escHeld, fnHeld, Out(flags, events))
    }

    /** The state at power-on, for a matrix of `rows` rows: every key up,
        no ghost, every cell on layer 0, no debounce and no repeat key. */
    constructor (rows: nat)
      ensures Valid() && matrix.Length == rows && fresh(matrix) && fresh(ghosts) && fresh(lastLayer)
      ensures State() == Kb(seq(rows, _ => 0), seq(rows, _ => false), seq(rows * Columns, _ => 0), 0,
                            Debounce(false, 0), Repeat(false, 0, 0, 0), false, false, Out(Flags(false, 0, false), []))
    {
      matrix := new bv8[rows](_ => 0);
      ghosts := new bool[rows](_ => false);
      lastLayer := new bv8[rows * Columns](_ => 0);
      layer := 0;
      debounce := Debounce(false, 0);
      repeat := Repeat(false, 0, 0, 0);
      escHeld, fnHeld := false, false;
      flags := Flags(false, 0, false);
      events := [];
    }

    /** `hardware_hotkey(key)`. */
    method Hotkey(key: Key, sw: Switches)
      modifies this`flags, this`events
      ensures var (f, ev) := HardwareHotkey(key, old(flags), sw);
        flags == f && events == old(events) + ev
    {
      if key == DisplayToggle {
        events := events + [TogglePin(BacklightEnable)];
      } else if key == CameraToggle {
        if sw.cameraSwitchEnabled {
          events := events + [TogglePin(CameraEnable)];
        }
      } else if key == FanToggle {
        flags := flags.(fanMax := !flags.fanMax);
      } else if key == KbdBkl {
        events := events + [Kbled(Step)];
      } else if key == KbdColor {
        events := events + [Kbled(Color)];
      } else if key == KbdDown {
        events := events + [Kbled(Down)];
      } else if key == KbdUp {
        events := events + [Kbled(Up)];
      } else if key == KbdToggle {
        events := events + [Kbled(Toggle)];
      }
    }

    /** `kbscan_press(key, pressed, layer)`; `slot` is the layer argument it
        updates, None when that argument is NULL. */
    method PressKey(key: Key, pressed: bool, slot: Option<bv8>, sw: Switches, host: Host)
      returns (accepted: bool, slotOut: Option<bv8>)
      modifies this`flags, this`events
      ensures var o := Press(key, pressed, slot, old(flags), sw, host);
        accepted == o.accepted && slotOut == o.layer && flags == o.flags && events == old(events) + o.events
    {
      WakeOnPress(pressed, host);
      ghost var woken := events;
      accepted, slotOut := PressAwake(key, pressed, slot, sw, host);
      ghost var rest := events[|woken|..];
      assert events == old(events) + (WakeEvents(pressed, host) + rest);
    }

    /** `kbscan_press` after the wake-up. */
    method PressAwake(key: Key, pressed: bool, slot: Option<bv8>, sw: Switches, host: Host)
      returns (accepted: bool, slotOut: Option<bv8>)
      modifies this`flags, this`events
      ensures var o := AfterWake(key, pressed, slot, old(flags), sw, host);
        accepted == o.accepted && slotOut == o.layer && flags == o.flags && events == old(events) + o.events
    {
      if key == FnLock && pressed {
        flags := flags.(fnlock := !flags.fnlock);
        return true, slot;
      }
      accepted, slotOut := DispatchKey(key, pressed, slot, sw, host);
    }

    /** A press with the lid open while the host sleeps in S3 wakes it. */
    method WakeOnPress(pressed: bool, host: Host)
      modifies this`events
      ensures events == old(events) + WakeEvents(pressed, host)
    {
      if pressed && host.lidOpen && host.power == S3 {
        events := events + [SoftwareWake];
      }
    }

    /** The `switch (key & KT_MASK)` of `kbscan_press`. */
    method DispatchKey(key: Key, pressed: bool, slot: Option<bv8>, sw: Switches, host: Host)
      returns (accepted: bool, slotOut: Option<bv8>)
      modifies this`flags, this`events
      ensures var o := Dispatch(key, pressed, slot, old(flags), sw, host);
        accepted == o.accepted && slotOut == o.layer && flags == o.flags && events == old(events) + o.events
    {
      accepted, slotOut := true, slot;
      match TypeOf(key)
      case Normal =>
        if sw.enabled {
          events := events + [Scancode(key, pressed)];
        }
      case Layer =>
        if slot.None? {
          return false, slotOut;
        }
        slotOut := Some(if pressed then 1 else 0);
      case Combo =>
        accepted := PressCombo(Payload(key), pressed, sw, host);
      case Sci =>
        accepted := PressSci(key, pressed, slot, sw, host);
      case SciExtra =>
        accepted := PressSciExtra(key, pressed, slot, sw, host);
      case Unassigned =>
    }

    /** The `KT_SCI` case of `kbscan_press`. */
    method PressSci(key: Key, pressed: bool, slot: Option<bv8>, sw: Switches, host: Host) returns (accepted: bool)
      modifies this`flags, this`events
      ensures var o := SciPress(key, pressed, slot, old(flags), sw, host);
        accepted == o.accepted && flags == o.flags && events == old(events) + o.events
    {
      accepted := true;
      if pressed {
        if host.acpiOs {
          events := events + [RaiseSci(Payload(key))];
          if !host.sciAccepted {
            return false;
          }
        }
        Hotkey(key, sw);
      }
    }

    /** The `KT_SCI_EXTRA` case of `kbscan_press`. */
    method PressSciExtra(key: Key, pressed: bool, slot: Option<bv8>, sw: Switches, host: Host) returns (accepted: bool)
      modifies this`flags, this`events
      ensures var o := SciExtraPress(key, pressed, slot, old(flags), sw, host);
        accepted == o.accepted && flags == o.flags && events == old(events) + o.events
    {
      accepted := true;
      if pressed {
        if host.acpiOs {
          flags := flags.(sciExtra := Payload(key));
          events := events + [RaiseSci(SciExtraNumber)];
          if !host.sciAccepted {
            return false;
          }
        }
        Hotkey(key, sw);
      }
    }

    /** The `KT_COMBO` cases of `kbscan_press`. */
    method PressCombo(combo: bv8, pressed: bool, sw: Switches, host: Host) returns (accepted: bool)
      modifies this`events
      ensures var o := ComboPress(combo, pressed, None, flags, sw, host);
        accepted == o.accepted && events == old(events) + o.events
    {
      accepted := true;
      if combo == ComboDisplayMode {
        if sw.enabled {
          events := events + DisplayModeCodes(pressed);
        }
      } else if combo == ComboPrintScreen {
        if sw.enabled {
          events := events + PrintScreenCodes(pressed);
        }
      } else if combo == ComboPause {
        if sw.enabled {
          events := events + PauseCodes(pressed);
        }
      } else if combo == ComboTouchpad {
        if sw.enabled {
          events := events + [Scancode(ExtendedE0 | 0x63, pressed)];
        }
        if pressed && host.acpiOs {
          events := events + [RaiseSci(0x0A)];
          accepted := host.sciAccepted;
        }
      }
    }

    /** `kbscan_event`: one pass over the matrix with the inputs `env`. */
    method Event(env: Env)
      requires Valid() && |env.raw| == matrix.Length
      modifies this, matrix, ghosts, lastLayer
      ensures Valid() && State() == Pass(old(State()), env)
    {
      TickDebounce(env.now);
      var slot := Rows(env, layer);
      layer := slot;
    }

    /** Close the debounce window once `DebounceDelay` has passed. */
    method TickDebounce(now: bv32)
      modifies this`debounce
      ensures debounce == Tick(old(debounce), now)
    {
      if debounce.active && AtLeast(now, debounce.since, DebounceDelay) {
        debounce := debounce.(active := false);
      }
    }

    /** Every row in order; `slot` is the layer the pass carries from key to
        key. */
    method Rows(env: Env, slot: bv8) returns (slot2: bv8)
      requires Valid() && |env.raw| == matrix.Length
      modifies this, matrix, ghosts, lastLayer
      ensures Valid() && Work(State(), slot2) == Fold(RowStepOf(env), Work(old(State()), slot), matrix.Length)
    {
      ghost var w0 := Work(State(), slot);
      slot2 := slot;
      var i := 0;
      while i < matrix.Length
        invariant Valid() && i <= matrix.Length
        invariant Work(State(), slot2) == Fold(RowStepOf(env), w0, i)
      {
        ghost var v := Work(State(), slot2);
        slot2 := Row(env, i, slot2);
        assert RowStepOf(env)(v, i) == RowStep(v, env, i);
        i := i + 1;
      }
    }

    /** Row `i` of `kbscan_event`. */
    method Row(env: Env, i: nat, slot: bv8) returns (slot2: bv8)
      requires Valid() && i < matrix.Length && |env.raw| == matrix.Length
      modifies this, matrix, ghosts, lastLayer
      ensures Valid() && Work(State(), slot2) == RowStep(Work(old(State()), slot), env, i)
    {
      slot2 := slot;
      var data := if env.host.lidOpen then env.raw[i] else 0;
      assert data == Reads(env)[i];
      if data != matrix[i] {
        var ghosted := HasGhostInRow(env.board.base, env.board.nkey, Reads(env), i, data);
        if ghosted {
          MarkGhosted(i);
        } else {
          slot2 := ChangedRow(env, i, data, slot);
        }
      } else if data != 0 && repeat.key != 0 && ShouldRepeat(repeat.key) {
        slot2 := RepeatRow(env, slot);
      }
    }

    /** A changed row that reads as ghosted keeps its old value, marked. */
    method MarkGhosted(i: nat)
      requires Valid() && i < matrix.Length
      modifies ghosts
      ensures Valid() && State() == MarkGhost(old(State()), i)
    {
      ghosts[i] := true;
      assert ghosts[..] == old(ghosts[..])[i := true];
    }

    /** A changed row that is not ghosted: clear a ghost mark (opening the
        debounce window), walk the columns and store the row they leave. */
    method ChangedRow(env: Env, i: nat, data: bv8, slot: bv8) returns (slot2: bv8)
      requires Valid() && i < matrix.Length && |env.raw| == matrix.Length
      modifies this, matrix, ghosts, lastLayer
      ensures Valid() && Work(State(), slot2) == ScanRow(Work(old(State()), slot), env, i, data)
    {
      var last := matrix[i];
      if ghosts[i] {
        ghosts[i] := false;
        debounce := Debounce(true, env.now);
      }
      assert State() == ClearGhost(old(State()), i, env.now);
      var nw;
      nw, slot2 := ScanColumns(env, i, last, data, slot);
      matrix[i] := nw;
    }

    /** The columns of a changed row `i` that is not ghosted: `last` is the
        debounced row and `data` the row read. Returns the row to commit. */
    method ScanColumns(env: Env, i: nat, last: bv8, data: bv8, slot: bv8) returns (nw: bv8, slot2: bv8)
      requires Valid() && i < matrix.Length
      modifies this, lastLayer
      ensures Valid()
      ensures (Work(State(), slot2), nw) == ColFold(ColStepOf(env, i, last), (Work(old(State()), slot), data), Columns)
    {
      ghost var s0 := (Work(State(), slot), data);
      CellInRange(i, Columns - 1, matrix.Length);
      nw, slot2 := data, slot;
      var j := 0;
      while j < Columns
        invariant Valid() && j <= Columns
        invariant (Work(State(), slot2), nw) == ColFold(ColStepOf(env, i, last), s0, j)
      {
        CellInRange(i, j, matrix.Length);
        nw, slot2 := ColumnStep(env, i, j, last, nw, slot2);
        j := j + 1;
      }
    }

    /** Typematic repeat for a row that reads the same as before and is not
        empty. */
    method RepeatRow(env: Env, slot: bv8) returns (slot2: bv8)
      requires Valid()
      modifies this
      ensures Valid() && Work(State(), slot2) == RepeatStep(Work(old(State()), slot), env)
    {
      slot2 := slot;
      var now := env.now;
      if !repeat.on {
        if Earlier(now, repeat.keyTime) {
          repeat := repeat.(keyTime := now);
        } else if AtLeast(now, repeat.keyTime, env.settings.repeatDelay) {
          repeat := repeat.(on := true, start := now);
        }
      }
      if repeat.on && MoreThan(now, repeat.start, env.settings.repeatPeriod) {
        var accepted, s := PressKey(repeat.key, true, Some(slot), env.settings.sw, env.host);
        slot2 := if s.Some? then s.value else slot;
        repeat := repeat.(start := now);
      }
    }

    /** Column `j` of row `i` inside `kbscan_event`: `last` is the debounced
        row, `nw` the row being committed and `slot` the pass's layer. */
    method ColumnStep(env: Env, i: nat, j: nat, last: bv8, nw: bv8, slot: bv8) returns (nw2: bv8, slot2: bv8)
      requires Valid() && j < Columns && Cell(i, j) < lastLayer.Length
      modifies this, lastLayer
      ensures Valid()
      ensures (Work(State(), slot2), nw2) == ColStep(Work(old(State()), slot), env, i, j, last, nw)
    {
      nw2, slot2 := nw, slot;
      var newB, lastB := Bit(nw, j), Bit(last, j);
      if newB == lastB {
        return;
      }
      var reset := false;
      if debounce.active {
        reset := true;
      } else {
        AcceptTransition(env, i, j, newB);
        var ok;
        ok, slot2 := DeliverKey(env, i, j, newB, slot);
        reset := !ok;
      }
      if reset {
        nw2 := SetBit(nw2, j, lastB);
      }
    }

    /** Opening the window on a transition of cell (`i`, `j`). */
    method AcceptTransition(env: Env, i: nat, j: nat, pressed: bool)
      requires Valid() && Cell(i, j) < lastLayer.Length
      modifies this, lastLayer
      ensures Valid() && State() == Accept(old(State()), env, i, j, pressed)
    {
      debounce := Debounce(true, env.now);
      if i == env.board.escRow && j == env.board.escCol {
        escHeld := pressed;
      }
      if i == env.board.fnRow && j == env.board.fnCol {
        fnHeld := pressed;
      }
      if pressed {
        lastLayer[Cell(i, j)] := layer;
      }
    }

    /** The key lookup, dispatch and repeat tracking of a transition. */
    method DeliverKey(env: Env, i: nat, j: nat, pressed: bool, slot: bv8) returns (ok: bool, slot2: bv8)
      requires Valid() && Cell(i, j) < lastLayer.Length
      modifies this
      ensures Valid() && (Work(State(), slot2), ok) == Deliver(Work(old(State()), slot), env, i, j, pressed)
    {
      ok, slot2 := true, slot;
      ghost var w := Work(State(), slot);
      var key := env.keymap(flags.fnlock, lastLayer[Cell(i, j)], i, j);
      assert key == TransitionKey(w.kb, env, i, j);
      if key != 0 {
        ghost var o := ScanPress(w.kb.out, slot, env, key, pressed);
        DeliverDispatches(w, env, i, j, pressed, o);
        var s;
        ok, s := PressKey(key, pressed, Some(slot), env.settings.sw, env.host);
        slot2 := if s.Some? then s.value else slot;
        TrackKey(key, pressed, env.now);
        assert ok == o.accepted && slot2 == LayerOf(o, slot) && Out(flags, events) == Emit(w.kb.out, o);
      }
    }

    /** Repeat tracking after a dispatched transition of `key`. */
    method TrackKey(key: Key, pressed: bool, now: bv32)
      modifies this`repeat
      ensures repeat == Track(old(repeat), key, pressed, now)
    {
      if pressed {
        repeat := repeat.(key := key, keyTime := now, on := false);
      } else if key == repeat.key {
        repeat := repeat.(key := 0, on := false);
      }
    }
  }

  /** `Deliver` for a cell that has a key, in terms of the dispatch outcome. */
  lemma DeliverDispatches(w: Work, env: Env, i: nat, j: nat, pressed: bool, o: Outcome)
    requires Cell(i, j) < |w.kb.lastLayer| && TransitionKey(w.kb, env, i, j) != 0
    requires o == ScanPress(w.kb.out, w.layer, env, TransitionKey(w.kb, env, i, j), pressed)
    ensures var key := TransitionKey(w.kb, env, i, j);
      Deliver(w, env, i, j, pressed) ==
        (Work(w.kb.(out := Emit(w.kb.out, o), repeat := Track(w.kb.repeat, key, pressed, env.now)), LayerOf(o, w.layer)), o.accepted)
  {
  }
}
