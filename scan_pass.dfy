/** One pass of the keyboard scanner, `kbscan_event` in
    board/system76/common/kbscan.c, as a function of the scanner state and
    the inputs of the pass.

    A pass first lets a finished debounce window expire, then visits every
    row of the matrix: a row that reads differently from the debounced
    matrix is either held back as ghosted or has its changed columns
    processed one by one, and a row that reads the same and is not empty
    drives typematic repeat of the last pressed key. Only the first changed
    column found while no debounce window is open is acted on; it opens the
    window, and every other change is put back until the window closes. */
module Scan {
  import opened Bits
  import opened Platform
  import opened Keymap
  import opened KeyPress
  import opened Ghost

  /** `DEBOUNCE_DELAY`, in milliseconds. */
  const DebounceDelay: bv16 := 15

  /** `keymap_get(layer, row, col, &key)`, with 0 when there is no key. The
      lookup may depend on `keymap_fnlock`, which it receives. */
  type DynamicKeymap = (bool, bv8, nat, nat) -> Key

  /** Build-time facts about the board: the built-in keymap, whether the
      matrix has a diode per key (`KM_NKEY`), and where Esc and Fn sit. */
  datatype Board = Board(base: BaseKeymap, nkey: bool, escRow: nat, escCol: nat, fnRow: nat, fnCol: nat)

  /** Settings other parts of the firmware change between passes:
      `kbscan_enabled`, `camera_switch_enabled`, `kbscan_repeat_delay` and
      `kbscan_repeat_period`. */
  datatype Settings = Settings(sw: Switches, repeatDelay: bv16, repeatPeriod: bv16)

  /** The inputs of one pass: the time, the raw rows as the matrix reads
      them with the lid open, the host state, the keymap and the settings. */
  datatype Env = Env(now: bv32, raw: seq<bv8>, host: Host, keymap: DynamicKeymap, settings: Settings, board: Board)

  /** The debounce window: whether it is open and when it opened. */
  datatype Debounce = Debounce(active: bool, since: bv32)

  /** Typematic repeat: whether the key is repeating, the key, when it was
      pressed and when it last repeated. */
  datatype Repeat = Repeat(on: bool, key: Key, keyTime: bv32, start: bv32)

  /** What the scanner hands on: the flags the dispatcher updates and the
      calls made so far. */
  datatype Out = Out(flags: Flags, events: seq<Event>)

  /** The state `kbscan_event` keeps between passes. */
  datatype Kb = Kb(
    matrix: seq<bv8>,         // kbscan_matrix
    ghosts: seq<bool>,        // kbscan_ghost
    lastLayer: seq<bv8>,      // kbscan_last_layer, row by row
    layer: bv8,               // kbscan_layer
    debounce: Debounce,
    repeat: Repeat,
    escHeld: bool,            // kbscan_esc_held
    fnHeld: bool,             // kbscan_fn_held
    out: Out)

  /** The state during a pass: the scanner state and the pass's local copy
      of the layer, which the dispatcher updates. */
  datatype Work = Work(kb: Kb, layer: bv8)

  /** The array sizes agree with the number of rows. */
  predicate Fits(kb: Kb, rows: nat)
  {
    |kb.matrix| == rows && |kb.ghosts| == rows && |kb.lastLayer| == rows * Columns
  }

  /** Index of cell (`i`, `j`) in `lastLayer`. */
  function Cell(i: nat, j: nat): nat
  {
    i * Columns + j
  }

  lemma CellInRange(i: nat, j: nat, rows: nat)
    requires i < rows && j < Columns
    ensures Cell(i, j) < rows * Columns
  {
  }

  /** The rows as `kbscan_get_row` returns them: all released with the lid
      closed. */
  function Reads(env: Env): (r: seq<bv8>)
    ensures |r| == |env.raw|
    ensures forall i :: 0 <= i < |r| ==> r[i] == if env.host.lidOpen then env.raw[i] else 0
  {
    if env.host.lidOpen then env.raw else seq(|env.raw|, _ => 0)
  }

  /** At least `delay` milliseconds have passed from `t` to `now`, counting
      in wrapping 32-bit time. */
  predicate AtLeast(now: bv32, t: bv32, delay: bv16)
  {
    now - t >= delay as bv32
  }

  /** More than `period` milliseconds have passed from `t` to `now`, in
      wrapping 32-bit time. */
  predicate MoreThan(now: bv32, t: bv32, period: bv16)
  {
    now - t > period as bv32
  }

  /** The clock reads earlier than `t`: it has wrapped since. */
  predicate Earlier(now: bv32, t: bv32)
  {
    now < t
  }

  /** The debounce window closes once 15 ms have passed since it opened. */
  function Tick(d: Debounce, now: bv32): Debounce
  {
    if d.active && AtLeast(now, d.since, DebounceDelay) then d.(active := false) else d
  }

  /** The key a transition of cell (`i`, `j`) resolves to, looked up on the
      cell's cached layer after a press has refreshed it. */
  function TransitionKey(kb: Kb, env: Env, i: nat, j: nat): Key
    requires Cell(i, j) < |kb.lastLayer|
  {
    env.keymap(kb.out.flags.fnlock, kb.lastLayer[Cell(i, j)], i, j)
  }

  /** The state change of a transition that opens the debounce window:
      record the time, note Esc and Fn, and on a press cache the layer. */
  function Accept(kb: Kb, env: Env, i: nat, j: nat, pressed: bool): (r: Kb)
    requires Cell(i, j) < |kb.lastLayer|
    ensures |r.lastLayer| == |kb.lastLayer| && r.matrix == kb.matrix && r.ghosts == kb.ghosts
  {
    var b := env.board;
    var esc := if i == b.escRow && j == b.escCol then pressed else kb.escHeld;
    var fn := if i == b.fnRow && j == b.fnCol then pressed else kb.fnHeld;
    var cache := if pressed then kb.lastLayer[Cell(i, j) := kb.layer] else kb.lastLayer;
    kb.(debounce := Debounce(true, env.now), escHeld := esc, fnHeld := fn, lastLayer := cache)
  }

  /** Repeat tracking after a dispatched transition of `key`: a press makes
      it the repeat key, a release of the repeat key stops tracking. */
  function Track(rp: Repeat, key: Key, pressed: bool, now: bv32): Repeat
  {
    if pressed then rp.(key := key, keyTime := now, on := false)
    else if key == rp.key then rp.(key := 0, on := false)
    else rp
  }

  /** The layer slot after a dispatch that was given one. */
  function LayerOf(o: Outcome, layer: bv8): bv8
  {
    if o.layer.Some? then o.layer.value else layer
  }

  /** `kbscan_press` from the scanner: the outcome, given the pass's layer. */
  function ScanPress(out: Out, layer: bv8, env: Env, key: Key, pressed: bool): Outcome
  {
    Press(key, pressed, Some(layer), out.flags, env.settings.sw, env.host)
  }

  /** The flags and calls after a dispatch. */
  function Emit(out: Out, o: Outcome): Out
  {
    Out(o.flags, out.events + o.events)
  }

  /** Column `j` of row `i`: `nw` is the row being committed, `last` the
      debounced row. A change is put back (`reset`) while the window is
      open, or when the dispatcher rejects it. */
  function ColStep(w: Work, env: Env, i: nat, j: nat, last: bv8, nw: bv8): (r: (Work, bv8))
    requires j < Columns && Cell(i, j) < |w.kb.lastLayer|
    ensures |r.0.kb.lastLayer| == |w.kb.lastLayer|
    ensures r.0.kb.matrix == w.kb.matrix && r.0.kb.ghosts == w.kb.ghosts
  {
    var newB := Bit(nw, j);
    var lastB := Bit(last, j);
    if newB == lastB then (w, nw)
    else if w.kb.debounce.active then (w, SetBit(nw, j, lastB))
    else
      var (w2, ok) := Deliver(Work(Accept(w.kb, env, i, j, newB), w.layer), env, i, j, newB);
      (w2, if ok then nw else SetBit(nw, j, lastB))
  }

  /** A transition that opened the window: look its key up and, if the cell
      has one, dispatch it and track the repeat key. Also says whether the
      transition stands. */
  function Deliver(w: Work, env: Env, i: nat, j: nat, pressed: bool): (r: (Work, bool))
    requires Cell(i, j) < |w.kb.lastLayer|
    ensures r.0.kb.matrix == w.kb.matrix && r.0.kb.ghosts == w.kb.ghosts && r.0.kb.lastLayer == w.kb.lastLayer
  {
    var key := TransitionKey(w.kb, env, i, j);
    if key == 0 then (w, true)
    else
      var o := ScanPress(w.kb.out, w.layer, env, key, pressed);
      var kb := w.kb.(out := Emit(w.kb.out, o), repeat := Track(w.kb.repeat, key, pressed, env.now));
      (Work(kb, LayerOf(o, w.layer)), o.accepted)
  }

  /** A column's step within row `i`, on the state and the row being
      committed. A row has `Columns` columns; any other is left alone. */
  function ColStepOf(env: Env, i: nat, last: bv8): ((Work, bv8), nat) -> (Work, bv8)
  {
    (s: (Work, bv8), j: nat) =>
      if j < Columns && Cell(i, j) < |s.0.kb.lastLayer| then ColStep(s.0, env, i, j, last, s.1) else s
  }

  /** `step` applied to columns 0 to `n - 1`, in order. */
  function ColFold(step: ((Work, bv8), nat) -> (Work, bv8), s: (Work, bv8), n: nat): (Work, bv8)
  {
    if n == 0 then s else step(ColFold(step, s, n - 1), n - 1)
  }

  /** The columns of a row change neither the matrix, nor the ghost flags,
      nor the size of the layer cache. */
  lemma {:induction false} ColFoldKeeps(env: Env, i: nat, last: bv8, s: (Work, bv8), n: nat)
    ensures var r := ColFold(ColStepOf(env, i, last), s, n);
      r.0.kb.matrix == s.0.kb.matrix && r.0.kb.ghosts == s.0.kb.ghosts
      && |r.0.kb.lastLayer| == |s.0.kb.lastLayer|
  {
    if n > 0 {
      ColFoldKeeps(env, i, last, s, n - 1);
    }
  }

  /** Whether the repeat key is due for another press in this pass, after
      the repeat state has been brought up to date. */
  predicate RepeatDue(rp: Repeat, env: Env)
  {
    rp.on && MoreThan(env.now, rp.start, env.settings.repeatPeriod)
  }

  /** Start repeating once the key has been held for the repeat delay; a
      clock that went backwards restarts the delay. */
  function RepeatArm(rp: Repeat, env: Env): Repeat
  {
    var now := env.now;
    if rp.on then rp
    else if Earlier(now, rp.keyTime) then rp.(keyTime := now)
    else if AtLeast(now, rp.keyTime, env.settings.repeatDelay) then rp.(on := true, start := now)
    else rp
  }

  /** Typematic repeat for a row that reads the same as before. */
  function RepeatStep(w: Work, env: Env): (r: Work)
    ensures r.kb.matrix == w.kb.matrix && r.kb.ghosts == w.kb.ghosts && r.kb.lastLayer == w.kb.lastLayer
    ensures r.kb.debounce == w.kb.debounce
  {
    var rp := RepeatArm(w.kb.repeat, env);
    if RepeatDue(rp, env) then
      var o := ScanPress(w.kb.out, w.layer, env, rp.key, true);
      Work(w.kb.(out := Emit(w.kb.out, o), repeat := rp.(start := env.now)), LayerOf(o, w.layer))
    else
      Work(w.kb.(repeat := rp), w.layer)
  }

  /** Whether a row that reads the same as before drives repeat. */
  predicate Repeats(kb: Kb, data: bv8)
  {
    data != 0 && kb.repeat.key != 0 && ShouldRepeat(kb.repeat.key)
  }

  /** `kbscan_has_ghost_in_row` for row `i` of this pass. */
  ghost predicate GhostCheck(env: Env, i: nat, data: bv8)
  {
    !env.board.nkey && Ghosted(env.board.base, Reads(env), i, data)
  }

  /** A changed row that is ghosted stays as it was, marked. */
  function MarkGhost(kb: Kb, i: nat): (r: Kb)
    requires i < |kb.ghosts|
    ensures |r.ghosts| == |kb.ghosts| && r.matrix == kb.matrix && r.lastLayer == kb.lastLayer
  {
    kb.(ghosts := kb.ghosts[i := true])
  }

  /** A row that was ghosted and now is not: clear the mark and open the
      debounce window, so that the row's changes are all put back. */
  function ClearGhost(kb: Kb, i: nat, now: bv32): (r: Kb)
    requires i < |kb.ghosts|
    ensures |r.ghosts| == |kb.ghosts| && r.matrix == kb.matrix && r.lastLayer == kb.lastLayer
  {
    if kb.ghosts[i] then kb.(ghosts := kb.ghosts[i := false], debounce := Debounce(true, now)) else kb
  }

  /** Store the committed row. */
  function Commit(kb: Kb, i: nat, data: bv8): (r: Kb)
    requires i < |kb.matrix|
    ensures |r.matrix| == |kb.matrix| && r.ghosts == kb.ghosts && r.lastLayer == kb.lastLayer
  {
    kb.(matrix := kb.matrix[i := data])
  }

  /** The columns of a changed row that is not ghosted. */
  function ScanRow(w: Work, env: Env, i: nat, data: bv8): (r: Work)
    requires i < |env.raw| && Fits(w.kb, |env.raw|)
    ensures Fits(r.kb, |env.raw|)
    ensures r.kb.matrix == w.kb.matrix[i := r.kb.matrix[i]] && r.kb.ghosts == w.kb.ghosts[i := r.kb.ghosts[i]]
  {
    var kb := ClearGhost(w.kb, i, env.now);
    var s := ColFold(ColStepOf(env, i, w.kb.matrix[i]), (Work(kb, w.layer), data), Columns);
    ColFoldKeeps(env, i, w.kb.matrix[i], (Work(kb, w.layer), data), Columns);
    Work(Commit(s.0.kb, i, s.1), s.0.layer)
  }

  /** Row `i` of the pass. */
  ghost function RowStep(w: Work, env: Env, i: nat): (r: Work)
    requires i < |env.raw| && Fits(w.kb, |env.raw|)
    ensures Fits(r.kb, |env.raw|)
    ensures r.kb.matrix == w.kb.matrix[i := r.kb.matrix[i]] && r.kb.ghosts == w.kb.ghosts[i := r.kb.ghosts[i]]
  {
    var data := Reads(env)[i];
    if data != w.kb.matrix[i] then
      if GhostCheck(env, i, data) then Work(MarkGhost(w.kb, i), w.layer)
      else ScanRow(w, env, i, data)
    else if Repeats(w.kb, data) then RepeatStep(w, env)
    else w
  }

  /** A row's step as a function of the state and the row number. A pass
      visits only rows of the matrix; any other row is left alone. */
  ghost function RowStepOf(env: Env): (Work, nat) -> Work
  {
    (w: Work, i: nat) => if i < |env.raw| && Fits(w.kb, |env.raw|) then RowStep(w, env, i) else w
  }

  /** `step` applied to rows 0 to `n - 1`, in order. */
  ghost function Fold(step: (Work, nat) -> Work, w: Work, n: nat): Work
  {
    if n == 0 then w else step(Fold(step, w, n - 1), n - 1)
  }

  /** Every row step keeps the array sizes. */
  lemma StepFits(env: Env)
    ensures forall v: Work, i: nat :: Fits(v.kb, |env.raw|) ==> Fits(RowStepOf(env)(v, i).kb, |env.raw|)
  {
  }

  lemma {:induction false} FoldFits(env: Env, w: Work, n: nat)
    requires Fits(w.kb, |env.raw|)
    ensures Fits(Fold(RowStepOf(env), w, n).kb, |env.raw|)
  {
    if n > 0 {
      FoldFits(env, w, n - 1);
      StepFits(env);
    }
  }

  /** The start of a pass: the debounce window may close, and the pass's
      layer starts as the layer of the previous pass. */
  function Start(kb: Kb, env: Env): Work
  {
    Work(kb.(debounce := Tick(kb.debounce, env.now)), kb.layer)
  }

  /** `kbscan_event`: one whole pass. */
  ghost function Pass(kb: Kb, env: Env): (r: Kb)
    requires Fits(kb, |env.raw|)
    ensures Fits(r, |env.raw|)
  {
    var w := Fold(RowStepOf(env), Start(kb, env), |env.raw|);
    FoldFits(env, Start(kb, env), |env.raw|);
    w.kb.(layer := w.layer)
  }
}
