/** Properties of one scan pass (`kbscan_event` in
    board/system76/common/kbscan.c), stated about the functions of module
    Scan. */
module ScanProps {
  import opened Bits
  import opened Platform
  import opened Keymap
  import opened KeyPress
  import opened Ghost
  import opened Scan

  /** The number of matrix bits in which `m0` and `m1` differ, over the
      first `n` rows. */
  function DiffRows(m0: seq<bv8>, m1: seq<bv8>, n: nat): nat
    requires n <= |m0| && n <= |m1|
  {
    if n == 0 then 0 else DiffRows(m0, m1, n - 1) + DiffBits(m0[n - 1], m1[n - 1], 8)
  }

  lemma {:induction false} DiffRowsAgree(m0: seq<bv8>, a: seq<bv8>, b: seq<bv8>, n: nat)
    requires n <= |m0| && n <= |a| && n <= |b|
    requires forall k :: 0 <= k < n ==> a[k] == b[k]
    ensures DiffRows(m0, a, n) == DiffRows(m0, b, n)
  {
    if n > 0 {
      DiffRowsAgree(m0, a, b, n - 1);
    }
  }

  /** Replacing a row that still equals its original adds that row's
      differences. */
  lemma {:induction false} DiffRowsUpdate(m0: seq<bv8>, m1: seq<bv8>, i: nat, x: bv8, n: nat)
    requires i < n <= |m0| && |m0| == |m1| && m1[i] == m0[i]
    ensures DiffRows(m0, m1[i := x], n) == DiffRows(m0, m1, n) + DiffBits(m0[i], x, 8)
  {
    if n - 1 == i {
      DiffBitsSelf(m0[i], 8);
      DiffRowsAgree(m0, m1[i := x], m1, n - 1);
    } else {
      DiffRowsUpdate(m0, m1, i, x, n - 1);
    }
  }

  /** Matrices that differ in no bit are equal. */
  lemma {:induction false} DiffRowsZero(m0: seq<bv8>, m1: seq<bv8>, n: nat)
    requires n <= |m0| && n <= |m1| && DiffRows(m0, m1, n) == 0
    ensures forall k :: 0 <= k < n ==> m0[k] == m1[k]
  {
    if n > 0 {
      DiffRowsZero(m0, m1, n - 1);
      NoDiffBitsSame(m0[n - 1], m1[n - 1]);
    }
  }

  /** What the row-level lemmas need of a column step: it keeps the size
      of the layer cache, changes at most bit `j` of the row being
      committed, and only back to the debounced value; a change keeps or
      opens the debounce window, and a bit is committed different from the
      debounced one only when the window was closed. */
  ghost predicate ColsWellBehaved(step: ((Work, bv8), nat) -> (Work, bv8), i: nat, last: bv8)
  {
    forall s: (Work, bv8), j: nat :: j < Columns && Cell(i, j) < |s.0.kb.lastLayer| ==> ColBehaves(s, j, step(s, j), last)
  }

  predicate ColBehaves(s: (Work, bv8), j: nat, r: (Work, bv8), last: bv8)
    requires j < Columns
  {
    && |r.0.kb.lastLayer| == |s.0.kb.lastLayer|
    && DiffBits(last, r.1, j + 1) <= DiffBits(last, s.1, j) + (if s.0.kb.debounce.active then 0 else 1)
    && (s.0.kb.debounce.active ==> r.0.kb.debounce.active)
    && (!r.0.kb.debounce.active ==> DiffBits(last, r.1, j + 1) == DiffBits(last, s.1, j))
  }

  lemma ColStepWellBehaved(env: Env, i: nat, last: bv8)
    ensures ColsWellBehaved(ColStepOf(env, i, last), i, last)
  {
    forall s: (Work, bv8), j: nat | j < Columns && Cell(i, j) < |s.0.kb.lastLayer|
      ensures ColBehaves(s, j, ColStepOf(env, i, last)(s, j), last)
    {
      ColStepWindow(s.0, env, i, j, last, s.1);
    }
  }

  lemma ColStepWindow(w: Work, env: Env, i: nat, j: nat, last: bv8, nw: bv8)
    requires j < Columns && Cell(i, j) < |w.kb.lastLayer|
    ensures ColBehaves((w, nw), j, ColStep(w, env, i, j, last, nw), last)
  {
    ColStepShape(w, env, i, j, last, nw);
    ShapeBehaves((w, nw), j, ColStep(w, env, i, j, last, nw), last);
  }

  /** How a column step may change the row being committed and the
      window. */
  predicate ColShape(s: (Work, bv8), j: nat, r: (Work, bv8), last: bv8)
    requires j < Columns
  {
    && |r.0.kb.lastLayer| == |s.0.kb.lastLayer|
    && (r.1 == s.1 || r.1 == SetBit(s.1, j, Bit(last, j)))
    && (s.0.kb.debounce.active ==> r.0.kb.debounce.active)
    && (Bit(r.1, j) != Bit(last, j) ==> !s.0.kb.debounce.active)
    && (!r.0.kb.debounce.active ==> r.1 == s.1 && Bit(s.1, j) == Bit(last, j))
  }

  lemma ColStepShape(w: Work, env: Env, i: nat, j: nat, last: bv8, nw: bv8)
    requires j < Columns && Cell(i, j) < |w.kb.lastLayer|
    ensures ColShape((w, nw), j, ColStep(w, env, i, j, last, nw), last)
  {
  }

  lemma ShapeBehaves(s: (Work, bv8), j: nat, r: (Work, bv8), last: bv8)
    requires j < Columns && ColShape(s, j, r, last)
    ensures ColBehaves(s, j, r, last)
  {
    DiffBitsRevert(last, s.1, j);
  }

  /** The columns of one row commit at most one change, and none while the
      window is open. */
  lemma {:induction false} ColsWindow(step: ((Work, bv8), nat) -> (Work, bv8), i: nat, last: bv8, s: (Work, bv8), j: nat)
    requires ColsWellBehaved(step, i, last) && j <= Columns && Cell(i, Columns - 1) < |s.0.kb.lastLayer|
    ensures var r := ColFold(step, s, j);
      && |r.0.kb.lastLayer| == |s.0.kb.lastLayer|
      && DiffBits(last, r.1, j) <= (if s.0.kb.debounce.active then 0 else 1)
      && (s.0.kb.debounce.active ==> r.0.kb.debounce.active)
      && (!r.0.kb.debounce.active ==> DiffBits(last, r.1, j) == 0)
  {
    if j > 0 {
      ColsWindow(step, i, last, s, j - 1);
      var p := ColFold(step, s, j - 1);
      assert ColBehaves(p, j - 1, step(p, j - 1), last);
    }
  }

  /** One row: the bits of the row that change, and the window. */
  lemma RowWindow(w: Work, env: Env, i: nat)
    requires i < |env.raw| && Fits(w.kb, |env.raw|)
    ensures var r := RowStep(w, env, i);
      && DiffBits(w.kb.matrix[i], r.kb.matrix[i], 8) <= (if w.kb.debounce.active then 0 else 1)
      && (w.kb.debounce.active ==> r.kb.debounce.active)
      && (!r.kb.debounce.active ==> DiffBits(w.kb.matrix[i], r.kb.matrix[i], 8) == 0)
  {
    var data := Reads(env)[i];
    if data != w.kb.matrix[i] && !GhostCheck(env, i, data) {
      ScanRowWindow(w, env, i, data);
    } else {
      DiffBitsSelf(w.kb.matrix[i], 8);
    }
  }

  lemma ScanRowWindow(w: Work, env: Env, i: nat, data: bv8)
    requires i < |env.raw| && Fits(w.kb, |env.raw|)
    ensures var r := ScanRow(w, env, i, data);
      && DiffBits(w.kb.matrix[i], r.kb.matrix[i], 8) <= (if w.kb.debounce.active then 0 else 1)
      && (w.kb.debounce.active ==> r.kb.debounce.active)
      && (!r.kb.debounce.active ==> DiffBits(w.kb.matrix[i], r.kb.matrix[i], 8) == 0)
  {
    var kb := ClearGhost(w.kb, i, env.now);
    ColStepWellBehaved(env, i, w.kb.matrix[i]);
    ColsWindow(ColStepOf(env, i, w.kb.matrix[i]), i, w.kb.matrix[i], (Work(kb, w.layer), data), Columns);
  }

  /** What the pass-level lemmas need of a row step: it keeps the sizes,
      touches only its own row of the matrix and of the ghost flags, changes
      at most one bit of that row and only while the window is closed, and
      never closes the window. */
  ghost predicate WellBehaved(step: (Work, nat) -> Work, rows: nat)
  {
    forall v: Work, i: nat :: Fits(v.kb, rows) && i < rows ==> StepBehaves(v, i, step(v, i), rows)
  }

  ghost predicate StepBehaves(v: Work, i: nat, r: Work, rows: nat)
    requires Fits(v.kb, rows) && i < rows
  {
    && Fits(r.kb, rows)
    && r.kb.matrix == v.kb.matrix[i := r.kb.matrix[i]]
    && r.kb.ghosts == v.kb.ghosts[i := r.kb.ghosts[i]]
    && DiffBits(v.kb.matrix[i], r.kb.matrix[i], 8) <= (if v.kb.debounce.active then 0 else 1)
    && (v.kb.debounce.active ==> r.kb.debounce.active)
    && (!r.kb.debounce.active ==> DiffBits(v.kb.matrix[i], r.kb.matrix[i], 8) == 0)
  }

  lemma RowStepWellBehaved(env: Env)
    ensures WellBehaved(RowStepOf(env), |env.raw|)
  {
    forall v: Work, i: nat | Fits(v.kb, |env.raw|) && i < |env.raw|
      ensures StepBehaves(v, i, RowStepOf(env)(v, i), |env.raw|)
    {
      RowWindow(v, env, i);
    }
  }

  lemma {:induction false} FoldFitsRows(step: (Work, nat) -> Work, rows: nat, w: Work, n: nat)
    requires WellBehaved(step, rows) && Fits(w.kb, rows) && n <= rows
    ensures Fits(Fold(step, w, n).kb, rows)
  {
    if n > 0 {
      FoldFitsRows(step, rows, w, n - 1);
    }
  }

  /** Rows at and above `n` are untouched by the rows below it. */
  lemma {:induction false} FoldFrame(step: (Work, nat) -> Work, rows: nat, w: Work, n: nat, k: nat)
    requires WellBehaved(step, rows) && Fits(w.kb, rows) && n <= k < rows
    ensures Fits(Fold(step, w, n).kb, rows)
    ensures Fold(step, w, n).kb.matrix[k] == w.kb.matrix[k]
    ensures Fold(step, w, n).kb.ghosts[k] == w.kb.ghosts[k]
  {
    FoldFitsRows(step, rows, w, n);
    if n > 0 {
      FoldFrame(step, rows, w, n - 1, k);
    }
  }

  /** Row `i` ends the pass as its own step leaves it. */
  lemma {:induction false} FoldLater(step: (Work, nat) -> Work, rows: nat, w: Work, n: nat, i: nat)
    requires WellBehaved(step, rows) && Fits(w.kb, rows) && i < n <= rows
    ensures Fits(Fold(step, w, n).kb, rows) && Fits(Fold(step, w, i + 1).kb, rows)
    ensures Fold(step, w, n).kb.matrix[i] == Fold(step, w, i + 1).kb.matrix[i]
    ensures Fold(step, w, n).kb.ghosts[i] == Fold(step, w, i + 1).kb.ghosts[i]
  {
    FoldFitsRows(step, rows, w, n);
    FoldFitsRows(step, rows, w, i + 1);
    if n > i + 1 {
      FoldLater(step, rows, w, n - 1, i);
    }
  }

  /** Once open, the debounce window stays open for the rest of the pass. */
  lemma {:induction false} WindowStaysOpen(step: (Work, nat) -> Work, rows: nat, w: Work, a: nat, n: nat)
    requires WellBehaved(step, rows) && Fits(w.kb, rows) && a <= n <= rows
    requires Fold(step, w, a).kb.debounce.active
    ensures Fold(step, w, n).kb.debounce.active
  {
    if n > a {
      WindowStaysOpen(step, rows, w, a, n - 1);
      FoldFitsRows(step, rows, w, n - 1);
    }
  }

  /** The rows below `n`, compared with the matrix at the start. */
  lemma {:induction false} FoldWindow(step: (Work, nat) -> Work, rows: nat, w: Work, n: nat)
    requires WellBehaved(step, rows) && Fits(w.kb, rows) && n <= rows
    ensures Fits(Fold(step, w, n).kb, rows)
    ensures var r := Fold(step, w, n);
      && DiffRows(w.kb.matrix, r.kb.matrix, rows) <= (if w.kb.debounce.active then 0 else 1)
      && (w.kb.debounce.active ==> r.kb.debounce.active)
      && (!r.kb.debounce.active ==> DiffRows(w.kb.matrix, r.kb.matrix, rows) == 0)
  {
    FoldFitsRows(step, rows, w, n);
    if n == 0 {
      DiffRowsSelf(w.kb.matrix, rows);
    } else {
      FoldWindow(step, rows, w, n - 1);
      FoldFrame(step, rows, w, n - 1, n - 1);
      var v := Fold(step, w, n - 1);
      assert StepBehaves(v, n - 1, step(v, n - 1), rows);
      DiffRowsUpdate(w.kb.matrix, v.kb.matrix, n - 1, step(v, n - 1).kb.matrix[n - 1], rows);
    }
  }

  /** At most one bit of the debounced matrix changes in a pass; none when
      the debounce window is still open after the start of the pass; and a
      pass that changes the matrix leaves the window open. */
  lemma AtMostOneTransition(kb: Kb, env: Env)
    requires Fits(kb, |env.raw|)
    ensures DiffRows(kb.matrix, Pass(kb, env).matrix, |kb.matrix|) <= 1
    ensures Tick(kb.debounce, env.now).active ==> Pass(kb, env).matrix == kb.matrix
    ensures Pass(kb, env).matrix != kb.matrix ==> Pass(kb, env).debounce.active
  {
    RowStepWellBehaved(env);
    FoldWindow(RowStepOf(env), |env.raw|, Start(kb, env), |env.raw|);
    var m1 := Pass(kb, env).matrix;
    if DiffRows(kb.matrix, m1, |kb.matrix|) == 0 {
      DiffRowsZero(kb.matrix, m1, |kb.matrix|);
    }
  }

  lemma {:induction false} DiffRowsSelf(m: seq<bv8>, n: nat)
    requires n <= |m|
    ensures DiffRows(m, m, n) == 0
  {
    if n > 0 {
      DiffRowsSelf(m, n - 1);
      DiffBitsSelf(m[n - 1], 8);
    }
  }

  /** A changed row judged ghosted keeps its debounced value and is
      marked. */
  lemma GhostedRowHeld(kb: Kb, env: Env, i: nat)
    requires Fits(kb, |env.raw|) && i < |env.raw|
    requires Reads(env)[i] != kb.matrix[i] && GhostCheck(env, i, Reads(env)[i])
    ensures Pass(kb, env).matrix[i] == kb.matrix[i] && Pass(kb, env).ghosts[i]
  {
    var step, w := RowStepOf(env), Start(kb, env);
    RowStepWellBehaved(env);
    FoldFrame(step, |env.raw|, w, i, i);
    FoldLater(step, |env.raw|, w, |env.raw|, i);
    var v := Fold(step, w, i);
    assert step(v, i) == RowStep(v, env, i);
  }

  /** A changed row that was ghosted and no longer is: its mark clears, the
      debounce window opens, and every change in it is put back. */
  lemma GhostClearedRowReverts(kb: Kb, env: Env, i: nat)
    requires Fits(kb, |env.raw|) && i < |env.raw|
    requires Reads(env)[i] != kb.matrix[i] && !GhostCheck(env, i, Reads(env)[i]) && kb.ghosts[i]
    ensures Pass(kb, env).matrix[i] == kb.matrix[i] && !Pass(kb, env).ghosts[i]
    ensures Pass(kb, env).debounce.active
  {
    var step, w := RowStepOf(env), Start(kb, env);
    RowStepWellBehaved(env);
    FoldFrame(step, |env.raw|, w, i, i);
    FoldLater(step, |env.raw|, w, |env.raw|, i);
    var v := Fold(step, w, i);
    GhostClearStep(v, env, i);
    WindowStaysOpen(step, |env.raw|, w, i + 1, |env.raw|);
  }

  /** The step of a row whose ghost mark clears. */
  lemma GhostClearStep(v: Work, env: Env, i: nat)
    requires Fits(v.kb, |env.raw|) && i < |env.raw|
    requires Reads(env)[i] != v.kb.matrix[i] && !GhostCheck(env, i, Reads(env)[i]) && v.kb.ghosts[i]
    ensures RowStepOf(env)(v, i).kb.matrix[i] == v.kb.matrix[i]
    ensures !RowStepOf(env)(v, i).kb.ghosts[i] && RowStepOf(env)(v, i).kb.debounce.active
  {
    var data := Reads(env)[i];
    var kb1 := ClearGhost(v.kb, i, env.now);
    var step := ColStepOf(env, i, v.kb.matrix[i]);
    ColStepWellBehaved(env, i, v.kb.matrix[i]);
    ColsWindow(step, i, v.kb.matrix[i], (Work(kb1, v.layer), data), Columns);
    var s := ColFold(step, (Work(kb1, v.layer), data), Columns);
    NoDiffBitsSame(v.kb.matrix[i], s.1);
    ColFoldKeeps(env, i, v.kb.matrix[i], (Work(kb1, v.layer), data), Columns);
    assert RowStepOf(env)(v, i) == ScanRow(v, env, i, data) == Work(Commit(s.0.kb, i, s.1), s.0.layer);
  }

  /** A changed column is committed, rather than put back, exactly when the
      window was closed and either the cell has no key or the dispatcher
      accepted the transition. */
  lemma ColStepCommits(w: Work, env: Env, i: nat, j: nat, last: bv8, nw: bv8)
    requires j < Columns && Cell(i, j) < |w.kb.lastLayer| && Bit(nw, j) != Bit(last, j)
    ensures var r := ColStep(w, env, i, j, last, nw);
      var kb := Accept(w.kb, env, i, j, Bit(nw, j));
      var key := TransitionKey(kb, env, i, j);
      && (r.1 == nw || r.1 == SetBit(nw, j, Bit(last, j)))
      && (Bit(r.1, j) == Bit(nw, j) <==>
          !w.kb.debounce.active && (key == 0 || ScanPress(kb.out, w.layer, env, key, Bit(nw, j)).accepted))
  {
  }

  /** A cell with no keymap entry is committed without any call: nothing is
      sent, the repeat tracking and the layer stay as they were. */
  lemma KeylessDispatchesNothing(w: Work, env: Env, i: nat, j: nat, last: bv8, nw: bv8)
    requires j < Columns && Cell(i, j) < |w.kb.lastLayer|
    requires !w.kb.debounce.active
    requires TransitionKey(Accept(w.kb, env, i, j, Bit(nw, j)), env, i, j) == 0
    ensures var r := ColStep(w, env, i, j, last, nw);
      r.0.kb.out == w.kb.out && r.0.kb.repeat == w.kb.repeat && r.0.layer == w.layer && r.1 == nw
  {
  }

  /** The layer cache changes only on a press that opens the window, and
      then only in the pressed cell, which takes the scanner's layer. */
  lemma ColStepCache(w: Work, env: Env, i: nat, j: nat, last: bv8, nw: bv8)
    requires j < Columns && Cell(i, j) < |w.kb.lastLayer|
    ensures ColStep(w, env, i, j, last, nw).0.kb.lastLayer ==
      if Bit(nw, j) && !Bit(last, j) && !w.kb.debounce.active then w.kb.lastLayer[Cell(i, j) := w.kb.layer]
      else w.kb.lastLayer
  {
  }

  /** A press looks its key up on the scanner's layer and a release on the
      layer cached for the cell, so a key is released on the layer it was
      pressed on whatever happened to the layer in between. */
  lemma TransitionLayer(kb: Kb, env: Env, i: nat, j: nat, pressed: bool)
    requires Cell(i, j) < |kb.lastLayer|
    ensures TransitionKey(Accept(kb, env, i, j, pressed), env, i, j) ==
      env.keymap(kb.out.flags.fnlock, if pressed then kb.layer else kb.lastLayer[Cell(i, j)], i, j)
  {
  }

  /** The debounce window is open after the start of a pass exactly when it
      was open and fewer than 15 ms have passed, in wrapping time. */
  lemma TickCloses(d: Debounce, now: bv32)
    ensures Tick(d, now).active <==> d.active && !AtLeast(now, d.since, DebounceDelay)
    ensures Tick(d, now).since == d.since
  {
  }

  /** Arming typematic repeat: it starts once the key has been held for the
      delay, and a clock behind the press time restarts the delay. */
  lemma RepeatArms(rp: Repeat, env: Env)
    ensures var r := RepeatArm(rp, env);
      && r.key == rp.key
      && (r.on <==> rp.on || (!Earlier(env.now, rp.keyTime) && AtLeast(env.now, rp.keyTime, env.settings.repeatDelay)))
      && (!rp.on && Earlier(env.now, rp.keyTime) ==> r.keyTime == env.now)
      && (r.on && !rp.on ==> r.start == env.now)
  {
  }

  /** Once repeating, a held key is pressed again exactly when more than the
      repeat period has passed since its last press, which restarts the
      period; otherwise nothing is sent. */
  lemma RepeatPresses(w: Work, env: Env)
    ensures var rp := RepeatArm(w.kb.repeat, env);
      var r := RepeatStep(w, env);
      && (rp.on && MoreThan(env.now, rp.start, env.settings.repeatPeriod) ==>
            r.kb.out == Emit(w.kb.out, ScanPress(w.kb.out, w.layer, env, rp.key, true)) &&
            r.kb.repeat == rp.(start := env.now))
      && (!(rp.on && MoreThan(env.now, rp.start, env.settings.repeatPeriod)) ==>
            r == Work(w.kb.(repeat := rp), w.layer))
  {
  }

  /** After a row has driven repeat, no repeat is due again in the same
      pass: at most one repeated press per pass. */
  lemma RepeatOncePerPass(w: Work, env: Env)
    ensures !RepeatDue(RepeatStep(w, env).kb.repeat, env)
    ensures RepeatStep(RepeatStep(w, env), env).kb.out == RepeatStep(w, env).kb.out
  {
  }

  /** A key outside the repeating set never repeats: a row that reads the
      same as before leaves the whole state as it was. */
  lemma ExcludedKeyNeverRepeats(w: Work, env: Env, i: nat)
    requires i < |env.raw| && Fits(w.kb, |env.raw|)
    requires Reads(env)[i] == w.kb.matrix[i] && !ShouldRepeat(w.kb.repeat.key)
    ensures RowStep(w, env, i) == w
  {
  }

  /** Tracking the repeat key: a dispatched press makes its key the repeat
      key and restarts the delay; releasing the repeat key stops repeat. */
  lemma TrackRepeatKey(rp: Repeat, key: Key, pressed: bool, now: bv32)
    ensures var r := Track(rp, key, pressed, now);
      && (pressed ==> r.key == key && r.keyTime == now && !r.on)
      && (!pressed && key == rp.key ==> r.key == 0 && !r.on)
      && (!pressed && key != rp.key ==> r == rp)
  {
  }

  /** No event in `evs` is a scancode. */
  predicate NoScancodes(evs: seq<Event>)
  {
    forall e :: e in evs ==> !e.Scancode?
  }

  /** `evs` is `e0` followed by calls none of which is a scancode. */
  predicate CleanAfter(e0: seq<Event>, evs: seq<Event>)
  {
    |e0| <= |evs| && evs[..|e0|] == e0 && NoScancodes(evs[|e0|..])
  }

  lemma CleanAfterAppend(e0: seq<Event>, evs: seq<Event>, x: seq<Event>)
    requires CleanAfter(e0, evs) && NoScancodes(x)
    ensures CleanAfter(e0, evs + x)
  {
    assert (evs + x)[..|e0|] == evs[..|e0|];
    assert (evs + x)[|e0|..] == evs[|e0|..] + x;
  }

  ghost predicate ColsClean(step: ((Work, bv8), nat) -> (Work, bv8), e0: seq<Event>)
  {
    forall s: (Work, bv8), j: nat :: CleanAfter(e0, s.0.kb.out.events) ==> CleanAfter(e0, step(s, j).0.kb.out.events)
  }

  lemma ColStepClean(env: Env, i: nat, last: bv8, e0: seq<Event>)
    requires !env.settings.sw.enabled
    ensures ColsClean(ColStepOf(env, i, last), e0)
  {
    forall s: (Work, bv8), j: nat | CleanAfter(e0, s.0.kb.out.events)
      ensures CleanAfter(e0, ColStepOf(env, i, last)(s, j).0.kb.out.events)
    {
      if j < Columns && Cell(i, j) < |s.0.kb.lastLayer| {
        var kb := Accept(s.0.kb, env, i, j, Bit(s.1, j));
        var key := TransitionKey(kb, env, i, j);
        var o := ScanPress(kb.out, s.0.layer, env, key, Bit(s.1, j));
        NoScancodesWhenDisabled(key, Bit(s.1, j), Some(s.0.layer), kb.out.flags, env.settings.sw, env.host);
        CleanAfterAppend(e0, s.0.kb.out.events, o.events);
      }
    }
  }

  lemma {:induction false} ColFoldClean(step: ((Work, bv8), nat) -> (Work, bv8), e0: seq<Event>, s: (Work, bv8), n: nat)
    requires ColsClean(step, e0) && CleanAfter(e0, s.0.kb.out.events)
    ensures CleanAfter(e0, ColFold(step, s, n).0.kb.out.events)
  {
    if n > 0 {
      ColFoldClean(step, e0, s, n - 1);
    }
  }

  ghost predicate RowsClean(step: (Work, nat) -> Work, e0: seq<Event>)
  {
    forall v: Work, i: nat :: CleanAfter(e0, v.kb.out.events) ==> CleanAfter(e0, step(v, i).kb.out.events)
  }

  lemma RowStepClean(env: Env, e0: seq<Event>)
    requires !env.settings.sw.enabled
    ensures RowsClean(RowStepOf(env), e0)
  {
    forall v: Work, i: nat | CleanAfter(e0, v.kb.out.events)
      ensures CleanAfter(e0, RowStepOf(env)(v, i).kb.out.events)
    {
      if i < |env.raw| && Fits(v.kb, |env.raw|) {
        RowClean(v, env, i, e0);
      }
    }
  }

  lemma RowClean(v: Work, env: Env, i: nat, e0: seq<Event>)
    requires !env.settings.sw.enabled && i < |env.raw| && Fits(v.kb, |env.raw|)
    requires CleanAfter(e0, v.kb.out.events)
    ensures CleanAfter(e0, RowStep(v, env, i).kb.out.events)
  {
    var data := Reads(env)[i];
    var rp := RepeatArm(v.kb.repeat, env);
    var o := ScanPress(v.kb.out, v.layer, env, rp.key, true);
    NoScancodesWhenDisabled(rp.key, true, Some(v.layer), v.kb.out.flags, env.settings.sw, env.host);
    CleanAfterAppend(e0, v.kb.out.events, o.events);
    var kb := ClearGhost(v.kb, i, env.now);
    ColStepClean(env, i, v.kb.matrix[i], e0);
    ColFoldClean(ColStepOf(env, i, v.kb.matrix[i]), e0, (Work(kb, v.layer), data), Columns);
  }

  lemma {:induction false} FoldClean(step: (Work, nat) -> Work, e0: seq<Event>, w: Work, n: nat)
    requires RowsClean(step, e0) && CleanAfter(e0, w.kb.out.events)
    ensures CleanAfter(e0, Fold(step, w, n).kb.out.events)
  {
    if n > 0 {
      FoldClean(step, e0, w, n - 1);
    }
  }

  /** With `kbscan_enabled` clear, a pass sends no scancode to the keyboard
      controller: it only adds calls that are not scancodes. */
  lemma PassSendsNoScancodes(kb: Kb, env: Env)
    requires Fits(kb, |env.raw|) && !env.settings.sw.enabled
    ensures CleanAfter(kb.out.events, Pass(kb, env).out.events)
  {
    var e0 := kb.out.events;
    assert e0[|e0|..] == [];
    RowStepClean(env, e0);
    FoldClean(RowStepOf(env), e0, Start(kb, env), |env.raw|);
  }
}
