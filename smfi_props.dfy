/** Properties of the SMFI mailbox and debug ring. */
module SmfiProps {
  import opened Platform
  import opened Fan
  import opened Smfi

  // ---------------------------------------------------------------------
  // The event loop

  /** While the command byte is `CMD_NONE` the EC touches nothing. */
  lemma IdleChangesNothing(b: Box, cfg: Config, svc: Services)
    requires Fits(cfg, svc) && b.cmd[CmdAt] == CmdNone
    ensures Step(b, cfg, svc) == b
  {
  }

  /** Every handler answers `RES_OK` or `RES_ERR`. */
  lemma HandleAnswers(b: Box, cfg: Config, svc: Services)
    requires Fits(cfg, svc)
    ensures Handle(b, cfg, svc).0 == ResOk || Handle(b, cfg, svc).0 == ResErr
  {
  }

  /** A pending command always completes: the command byte ends as
      `CMD_NONE`, the result byte holds `RES_OK` or `RES_ERR`, and the data
      bytes are as the handler left them. */
  lemma PendingCompletes(b: Box, cfg: Config, svc: Services)
    requires Fits(cfg, svc) && b.cmd[CmdAt] != CmdNone
    ensures var after := Step(b, cfg, svc);
      after.cmd[CmdAt] == CmdNone && (after.cmd[ResAt] == ResOk || after.cmd[ResAt] == ResErr) &&
      after.cmd[ResAt] == Handle(b, cfg, svc).0 &&
      forall k :: DataAt <= k < Size ==> after.cmd[k] == Handle(b, cfg, svc).1.cmd[k]
  {
    HandleAnswers(b, cfg, svc);
  }

  /** A code that names no command is answered with `RES_ERR` and nothing
      else changes. */
  lemma UnknownCommandFails(b: Box, cfg: Config, svc: Services)
    requires Fits(cfg, svc) && b.cmd[CmdAt] != CmdNone && cfg.decode(b.cmd[CmdAt]).None?
    ensures Step(b, cfg, svc) == b.(cmd := b.cmd[ResAt := ResErr][CmdAt := CmdNone])
  {
  }

  /** `CMD_PROBE` answers the signature 0x76 0xEC and version 1, with
      `RES_OK`, and changes nothing else. */
  lemma ProbeSignature(b: Box, cfg: Config, svc: Services)
    requires Fits(cfg, svc) && b.cmd[CmdAt] != CmdNone && cfg.decode(b.cmd[CmdAt]) == Some(Probe)
    ensures var after := Step(b, cfg, svc);
      after.cmd[CmdAt] == CmdNone && after.cmd[ResAt] == ResOk &&
      after.cmd[DataAt..DataAt + 3] == [0x76, 0xEC, 0x01] &&
      after.cmd[DataAt + 3..] == b.cmd[DataAt + 3..] &&
      after.(cmd := b.cmd) == b
  {
    var after := Step(b, cfg, svc);
    assert after.cmd[DataAt..DataAt + 3] == [after.cmd[2], after.cmd[3], after.cmd[4]];
  }

  // ---------------------------------------------------------------------
  // Board and version strings

  /** A NUL, or the end, right after a stretch of non-NUL bytes ends the C
      string there. */
  lemma {:induction false} CStringEndsAt(t: seq<uint8>, n: nat)
    requires n <= |t| && (forall i :: 0 <= i < n ==> t[i] != 0) && (n == |t| || t[n] == 0)
    ensures CString(t) == t[..n]
    decreases n
  {
    if n == 0 {
    } else {
      assert t[0] != 0;
      CStringEndsAt(t[1..], n - 1);
      assert t[..n] == [t[0]] + t[1..][..n - 1];
    }
  }

  /** A host reading the NUL-terminated string at DATA after `CMD_BOARD` or
      `CMD_VERSION` gets the firmware's string, cut at the 254 bytes the
      region holds. */
  lemma StringReadBack(cmd: Region, s: seq<uint8>)
    ensures var n := Min(|CString(s)|, Size - DataAt);
      CString(CopyString(cmd, s)[DataAt..]) == CString(s)[..n] &&
      CopyString(cmd, s)[..DataAt] == cmd[..DataAt]
  {
    var str := CString(s);
    var t := CopyString(cmd, s)[DataAt..];
    var n := Min(|str|, Size - DataAt);
    assert forall i :: 0 <= i < n ==> t[i] == str[i];
    CStringEndsAt(t, n);
    assert t[..n] == str[..n];
  }

  // ---------------------------------------------------------------------
  // Print

  /** `cmd_print` prints `min(len, 252)` bytes, all taken from inside the
      region, writes that count back to DATA+1, and changes nothing else. */
  lemma PrintContract(b: Box)
    ensures var (res, after) := CmdPrint(b);
      var n := after.cmd[DataAt + 1] as int;
      res == ResOk && n == Min(b.cmd[DataAt + 1] as int, 252) && DataAt + 2 + n <= Size &&
      after.console == b.console + b.cmd[DataAt + 2..DataAt + 2 + n] &&
      (forall k :: 0 <= k < Size && k != DataAt + 1 ==> after.cmd[k] == b.cmd[k]) &&
      after.(cmd := b.cmd, console := b.console) == b
  {
  }

  // ---------------------------------------------------------------------
  // Fans

  /** Only fan indexes 0 and 1 exist: any other index fails without writing
      a register or the region. */
  lemma FanIndexChecked(b: Box, cfg: Config)
    requires b.cmd[DataAt] != 0 && b.cmd[DataAt] != 1
    ensures CmdFanGet(b) == (ResErr, b) && CmdFanSet(b, cfg) == (ResErr, b)
  {
  }

  /** Reading a fan back after setting it yields the duty that was set: the
      get leaves the region exactly as the host wrote it. */
  lemma FanSetThenGet(b: Box, cfg: Config)
    requires b.cmd[DataAt] == 0 || b.cmd[DataAt] == 1
    ensures var (res, written) := CmdFanSet(b, cfg);
      res == ResOk && CmdFanGet(written) == (ResOk, written)
  {
    assert b.cmd[DataAt + 1 := b.cmd[DataAt + 1]] == b.cmd;
  }

  /** Setting fan 0 drives the second CPU fan exactly when the board has
      one; the GPU fan is untouched. */
  lemma CpuFansTogether(b: Box, cfg: Config)
    requires b.cmd[DataAt] == 0
    ensures var after := CmdFanSet(b, cfg).1;
      after.pwm.cpu1 == b.cmd[DataAt + 1] && after.pwm.gpu1 == b.pwm.gpu1 &&
      (cfg.cpuFan2 ==> after.pwm.cpu2 == after.pwm.cpu1) &&
      (!cfg.cpuFan2 ==> after.pwm.cpu2 == b.pwm.cpu2)
  {
  }

  /** For a percentage the conversion is the plain `p * 255 / 100`: at most
      one below the rounded-up `PWM_DUTY(p)`. */
  lemma PercentDuty(p: int)
    requires 0 <= p <= 100
    ensures PercentToDuty(p) as int == p * 255 / 100
    ensures PwmDuty(p) - 1 <= PercentToDuty(p) as int <= PwmDuty(p)
  {
    assert Wrap16(p * 255) as int == p * 255;
  }

  /** Above 128 the 16-bit product wraps: 200 becomes duty 111, not the low
      byte 254 of 510. */
  lemma PercentDutyWraps()
    ensures PercentToDuty(200) == 111 && (200 * 255 / 100) % 0x100 == 254
  {
    assert Wrap16(200 * 255) == -14536;
  }

  /** Invalid points, or a fan without a curve, fail and change nothing, as
      written and as corrected. */
  lemma FanCurveSetRejects(b: Box, cfg: Config, svc: Services)
    requires !svc.pointsValid(CurvePoints(b.cmd)) || !(b.cmd[DataAt] == 0 || (b.cmd[DataAt] == 1 && cfg.haveDgpu))
    ensures CmdFanCurveSet(b, cfg, svc) == (ResErr, b)
    ensures CmdFanCurveSetAsWritten(b, cfg, svc) == (ResErr, b)
  {
  }

  /** The curve command succeeds exactly when the points are valid and the
      chosen fan's curve has four points; then that curve holds the points
      and nothing else changes, and on failure nothing changes at all. */
  lemma FanCurveSetOutcome(b: Box, cfg: Config, svc: Services)
    ensures var (res, after) := CmdFanCurveSet(b, cfg, svc);
      var points := CurvePoints(b.cmd);
      (res == ResOk || res == ResErr) &&
      (res == ResOk <==>
        (svc.pointsValid(points) &&
         ((b.cmd[DataAt] == 0 && |b.cpuCurve| == 4) || (b.cmd[DataAt] == 1 && cfg.haveDgpu && |b.gpuCurve| == 4)))) &&
      (res == ResErr ==> after == b) &&
      (res == ResOk && b.cmd[DataAt] == 0 ==> after == b.(cpuCurve := points)) &&
      (res == ResOk && b.cmd[DataAt] == 1 ==> after == b.(gpuCurve := points))
  {
    var points := CurvePoints(b.cmd);
    SetCurveContract(b.cpuCurve, 4, points);
    SetCurveContract(b.gpuCurve, 4, points);
    assert points[..4] == points;
  }

  /** As written, a curve the dGPU setter refuses (its default curve has five
      points, the command carries four) is answered `RES_OK` although
      nothing changed; the corrected handler answers `RES_ERR`. */
  lemma FanCurveSetHidesRefusal(b: Box, cfg: Config, svc: Services)
    requires svc.pointsValid(CurvePoints(b.cmd)) && b.cmd[DataAt] == 1 && cfg.haveDgpu
    requires |b.gpuCurve| == 5
    ensures CmdFanCurveSetAsWritten(b, cfg, svc) == (ResOk, b)
    ensures CmdFanCurveSet(b, cfg, svc) == (ResErr, b)
  {
  }

  // ---------------------------------------------------------------------
  // Keymap

  /** The low and high byte of a key give back the key. */
  lemma KeySplitJoins(key: uint16)
    ensures KeyOf(KeyLow(key), KeyHigh(key)) == key
  {
  }

  /** A key built from two bytes splits back into them. */
  lemma KeyJoinSplits(lo: uint8, hi: uint8)
    ensures KeyLow(KeyOf(lo, hi)) == lo && KeyHigh(KeyOf(lo, hi)) == hi
  {
  }

  /** The key `cmd_keymap_get` answers decodes, little-endian, from DATA+3
      and DATA+4, and only those two bytes change. */
  lemma KeymapGetLayout(b: Box, svc: Services)
    requires svc.keymapGet(b.cmd[DataAt], b.cmd[DataAt + 1], b.cmd[DataAt + 2]).Some?
    ensures var (res, after) := CmdKeymapGet(b, svc);
      res == ResOk &&
      KeyOf(after.cmd[DataAt + 3], after.cmd[DataAt + 4]) == svc.keymapGet(b.cmd[DataAt], b.cmd[DataAt + 1], b.cmd[DataAt + 2]).value &&
      (forall k :: 0 <= k < Size && k != DataAt + 3 && k != DataAt + 4 ==> after.cmd[k] == b.cmd[k]) &&
      after.(cmd := b.cmd) == b
  {
    KeySplitJoins(svc.keymapGet(b.cmd[DataAt], b.cmd[DataAt + 1], b.cmd[DataAt + 2]).value);
  }

  /** `cmd_keymap_set` asks the keymap to store, at the position the host
      named, the key whose little-endian bytes the host sent. */
  lemma KeymapSetStores(b: Box, svc: Services)
    ensures var after := CmdKeymapSet(b, svc).1;
      |after.log| > |b.log| &&
      after.log[|b.log|] == KeymapWrite(b.cmd[DataAt], b.cmd[DataAt + 1], b.cmd[DataAt + 2], after.log[|b.log|].key) &&
      KeyLow(after.log[|b.log|].key) == b.cmd[DataAt + 3] && KeyHigh(after.log[|b.log|].key) == b.cmd[DataAt + 4]
  {
    KeyJoinSplits(b.cmd[DataAt + 3], b.cmd[DataAt + 4]);
  }

  /** Set and get share one byte layout: when the keymap answers the key a
      request set, `cmd_keymap_get` on the same request leaves the region
      exactly as the host wrote it. */
  lemma KeymapRoundTrip(b: Box, later: Services)
    requires later.keymapGet(b.cmd[DataAt], b.cmd[DataAt + 1], b.cmd[DataAt + 2])
      == Some(KeyOf(b.cmd[DataAt + 3], b.cmd[DataAt + 4]))
    ensures CmdKeymapGet(b, later) == (ResOk, b)
  {
    var (lo, hi) := (b.cmd[DataAt + 3], b.cmd[DataAt + 4]);
    KeyJoinSplits(lo, hi);
    assert b.cmd[DataAt + 3 := lo][DataAt + 4 := hi] == b.cmd;
  }

  /** `cmd_keymap_set` succeeds only when the key was stored and the keymap
      saved. */
  lemma KeymapSetResult(b: Box, svc: Services)
    ensures var key := KeyOf(b.cmd[DataAt + 3], b.cmd[DataAt + 4]);
      CmdKeymapSet(b, svc).0 == ResOk <==>
        svc.keymapSet(b.cmd[DataAt], b.cmd[DataAt + 1], b.cmd[DataAt + 2], key) && svc.saveConfig
  {
  }

  // ---------------------------------------------------------------------
  // Matrix

  /** A host reading `KM_OUT` and `KM_IN` from DATA and DATA+1 and then that
      many rows from DATA+2 gets the matrix (the rows that fit). */
  lemma MatrixReadBack(b: Box, cfg: Config, svc: Services)
    requires Fits(cfg, svc)
    ensures var after := CmdMatrixGet(b, cfg, svc).1;
      var n := Min(after.cmd[DataAt] as int, Size - DataAt - 2);
      after.cmd[DataAt] == cfg.kmOut && after.cmd[DataAt + 1] == cfg.kmIn &&
      n <= |svc.matrix| && forall row :: 0 <= row < n ==> after.cmd[DataAt + 2 + row] == svc.matrix[row]
  {
  }

  /** `cmd_matrix_get` writes nothing before DATA or past the rows, and
      nothing outside the region. */
  lemma MatrixFrame(b: Box, cfg: Config, svc: Services)
    requires Fits(cfg, svc)
    ensures var after := CmdMatrixGet(b, cfg, svc).1;
      (forall k :: DataAt + 2 + |svc.matrix| <= k < Size ==> after.cmd[k] == b.cmd[k]) &&
      after.cmd[..DataAt] == b.cmd[..DataAt] &&
      after.(cmd := b.cmd) == b
  {
  }

  // ---------------------------------------------------------------------
  // The debug ring

  /** The tail steps through 1..255 cyclically: it is `tail mod 255 + 1`. */
  lemma NextTailCycles(tail: uint8)
    ensures NextTail(tail) as int == tail as int % 255 + 1
  {
  }

  /** `smfi_debug` stores the byte at the new tail and the tail in slot 0, and
      no other slot changes; slot 0 never receives data. */
  lemma DebugPushSlots(dbg: Ring, byte: uint8)
    ensures var after := DebugPush(dbg, byte); var t := NextTail(dbg[0]);
      t != 0 && after[0] == t && after[t as int] == byte &&
      forall k :: 0 < k < Size && k != t as int ==> after[k] == dbg[k]
  {
  }

  /** The tail after `n` bytes. */
  function Advance(tail: uint8, n: nat): uint8
  {
    if n == 0 then tail else NextTail(Advance(tail, n - 1))
  }

  lemma {:induction false} AdvanceCycles(tail: uint8, n: nat)
    requires n >= 1
    ensures Advance(tail, n) as int == (tail as int + n - 1) % 255 + 1
  {
    if n == 1 {
      NextTailCycles(tail);
    } else {
      AdvanceCycles(tail, n - 1);
      NextTailCycles(Advance(tail, n - 1));
    }
  }

  /** Within 255 steps the tail never revisits a slot. */
  lemma AdvanceDistinct(tail: uint8, i: nat, j: nat)
    requires 1 <= i < j <= 255
    ensures Advance(tail, i) != Advance(tail, j)
  {
    AdvanceCycles(tail, i);
    AdvanceCycles(tail, j);
  }

  /** After 255 bytes the tail is back where it was. */
  lemma RingPeriod(tail: uint8)
    requires tail != 0
    ensures Advance(tail, 255) == tail
  {
    AdvanceCycles(tail, 255);
  }

  /** The ring after printing `bytes` one by one. */
  function PushAll(dbg: Ring, bytes: seq<uint8>): Ring
  {
    if |bytes| == 0 then dbg else DebugPush(PushAll(dbg, bytes[..|bytes| - 1]), bytes[|bytes| - 1])
  }

  /** The tail after printing `bytes` is the tail advanced once per byte. */
  lemma {:induction false} PushAllTail(dbg: Ring, bytes: seq<uint8>)
    ensures PushAll(dbg, bytes)[0] == Advance(dbg[0], |bytes|)
  {
    if |bytes| > 0 {
      PushAllTail(dbg, bytes[..|bytes| - 1]);
    }
  }

  /** The ring keeps the last 255 bytes printed: the `j`-th of them sits in
      the slot the tail reached when it was printed. */
  lemma {:induction false} RingKeepsLast(dbg: Ring, bytes: seq<uint8>, j: nat)
    requires |bytes| <= 255 && j < |bytes|
    ensures PushAll(dbg, bytes)[Advance(dbg[0], j + 1) as int] == bytes[j]
  {
    var m := |bytes| - 1;
    var before := PushAll(dbg, bytes[..m]);
    PushAllTail(dbg, bytes[..m]);
    DebugPushSlots(before, bytes[m]);
    if j < m {
      RingKeepsLast(dbg, bytes[..m], j);
      AdvanceDistinct(dbg[0], j + 1, m + 1);
    }
  }
}
