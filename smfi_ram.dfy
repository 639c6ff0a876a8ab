/** The SMFI regions as the firmware holds them: two 256-byte arrays in EC
    RAM that the host reads and writes, updated in place by the command
    handlers, `smfi_debug` and `smfi_init` (board/system76/common/smfi.c).
    Each method is proved to do what the value model in `Smfi` says. */
module SmfiRam {
  import opened Platform
  import opened Fan
  import opened Smfi
  import Peci
  import Dgpu

  class Mailbox {
    /** `smfi_cmd`: command, result and data bytes. */
    const cmd: array<uint8>
    /** `smfi_dbg`: the debug ring, its tail in slot 0. */
    const dbg: array<uint8>
    /** The fan duty registers. */
    var pwm: Pwm
    /** The calls made with effects outside the regions, oldest first. */
    var log: seq<Effect>
    /** The bytes printed with `putchar`. */
    var console: seq<uint8>
    /** The fan drivers whose curves `cmd_fan_curve_set` replaces. */
    const cpu: Peci.Driver
    const gpu: Dgpu.Driver

    ghost predicate Valid()
    {
      cmd.Length == Size && dbg.Length == Size &&
      cmd as object != dbg &&
      cmd as object != cpu.fan.points && cmd as object != gpu.fan.points &&
      dbg as object != cpu.fan.points && dbg as object != gpu.fan.points &&
      cpu.fan.points != gpu.fan.points
    }

    /** Everything the command handlers can change, as a value. */
    function State(): Box
      requires Valid()
      reads this, cmd, cpu.fan.points, gpu.fan.points
    {
      Box(cmd[..], pwm, cpu.fan.points[..], gpu.fan.points[..], log, console)
    }

    /** The regions before `smfi_init`: their contents are unknown. */
    constructor (cpu: Peci.Driver, gpu: Dgpu.Driver, pwm: Pwm)
      requires cpu.fan.points != gpu.fan.points
      ensures Valid() && fresh(cmd) && fresh(dbg)
      ensures this.cpu == cpu && this.gpu == gpu && this.pwm == pwm && log == [] && console == []
    {
      cmd := new uint8[Size];
      dbg := new uint8[Size];
      this.cpu, this.gpu, this.pwm := cpu, gpu, pwm;
      log, console := [], [];
    }

    /** The clearing loops of `smfi_init`: every byte of both regions becomes
        zero, the command byte and the tail only after all the others. */
    method Init()
      requires Valid()
      modifies cmd, dbg
      ensures forall k :: 0 <= k < Size ==> cmd[k] == 0 && dbg[k] == 0
    {
      var i := CmdAt + 1;
      while i < Size
        invariant CmdAt + 1 <= i <= Size
        invariant cmd[CmdAt] == old(cmd[CmdAt]) && unchanged(dbg)
        invariant forall k :: CmdAt < k < i ==> cmd[k] == 0
      {
        cmd[i] := 0;
        i := i + 1;
      }
      cmd[CmdAt] := CmdNone;
      i := 1;
      while i < Size
        invariant 1 <= i <= Size
        invariant dbg[0] == old(dbg[0])
        invariant forall k :: 0 < k < i ==> dbg[k] == 0
        invariant forall k :: 0 <= k < Size ==> cmd[k] == 0
      {
        dbg[i] := 0;
        i := i + 1;
      }
      dbg[0] := 0;
    }

    /** `smfi_debug`: append one byte to the ring. */
    method Debug(byte: uint8)
      requires Valid()
      modifies dbg
      ensures dbg[..] == DebugPush(old(dbg[..]), byte)
    {
      var tail := dbg[0] as int;
      tail := tail + 1;
      if tail >= Size {
        tail := 1;
      }
      dbg[tail] := byte;
      dbg[0] := tail as uint8;
    }

    /** `smfi_event`. */
    method Event(cfg: Config, svc: Services)
      requires Valid() && Fits(cfg, svc)
      modifies this, cmd, cpu.fan.points, gpu.fan.points
      ensures State() == Step(old(State()), cfg, svc)
    {
      if cmd[CmdAt] == CmdNone {
        return;
      }
      var res := Dispatch(cfg, svc);
      cmd[ResAt] := res;
      cmd[CmdAt] := CmdNone;
    }

    /** The `switch` of `smfi_event`. */
    method Dispatch(cfg: Config, svc: Services) returns (res: uint8)
      requires Valid() && Fits(cfg, svc)
      modifies this, cmd, cpu.fan.points, gpu.fan.points
      ensures (res, State()) == Handle(old(State()), cfg, svc)
    {
      match cfg.decode(cmd[CmdAt])
      case None => res := ResErr;
      case Some(c) =>
        match c
        case Probe => res := AnswerProbe();
        case Board => res := AnswerString(svc.board);
        case Version => res := AnswerString(svc.version);
        case Print => res := PrintData();
        case FanGet => res := ReadFan();
        case FanSet => res := WriteFan(cfg);
        case KeymapGet => res := ReadKey(svc);
        case KeymapSet => res := WriteKey(svc);
        case MatrixGet => res := ReadMatrix(cfg, svc);
        case FanCurveSet => res := WriteCurve(cfg, svc);
        case CameraEnablementSet =>
          log := log + [Camera(cmd[DataAt] != 0)];
          res := ResOk;
        case WifiBtEnablementSet =>
          log := log + [Wireless(cmd[DataAt] != 0)];
          res := ResOk;
        case OptionGet =>
          cmd[DataAt] := svc.optionGet(cmd[DataAt]);
          res := ResOk;
        case OptionSet => res := WriteOption(svc);
        case Spi =>
          if SharesBit(cmd[DataAt] as nat, cfg.spiScratch as nat) {
            log := log + [ScratchTrampoline];
          }
          res := ResErr;
        case Reset =>
          log := log + [WatchdogReset];
          res := ResErr;
    }

    method AnswerProbe() returns (res: uint8)
      requires Valid()
      modifies cmd
      ensures (res, State()) == CmdProbe(old(State()))
    {
      cmd[DataAt] := 0x76;
      cmd[DataAt + 1] := 0xEC;
      cmd[DataAt + 2] := 0x01;
      res := ResOk;
    }

    /** `strncpy` of a firmware string into the data bytes: copy up to the
        string's NUL, then pad with NULs to the end of the region. */
    method AnswerString(s: seq<uint8>) returns (res: uint8)
      requires Valid()
      modifies cmd
      ensures (res, State()) == CmdString(old(State()), s)
    {
      ghost var str := CString(s);
      var i := 0;
      var ended := false;
      while i < Size - DataAt
        invariant 0 <= i <= Size - DataAt
        invariant if ended then |str| < i else i <= |str|
        invariant forall k :: 0 <= k < Size ==>
          cmd[k] == if DataAt <= k < DataAt + i then (if k - DataAt < |str| then str[k - DataAt] else 0) else old(cmd[k])
      {
        var c: uint8 := 0;
        if !ended && i < |s| && s[i] != 0 {
          c := s[i];
        } else {
          ended := true;
        }
        cmd[DataAt + i] := c;
        i := i + 1;
      }
      assert cmd[..] == CopyString(old(cmd[..]), s);
      res := ResOk;
    }

    /** `cmd_print`. */
    method PrintData() returns (res: uint8)
      requires Valid()
      modifies this`console, cmd
      ensures (res, State()) == CmdPrint(old(State()))
    {
      var n := PutChars(cmd[DataAt + 1]);
      cmd[DataAt + 1] := n as uint8;
      res := ResOk;
    }

    /** The loop of `cmd_print`: `putchar` each of the first `len` bytes after
        DATA+1 while the index stays inside the region. */
    method PutChars(len: uint8) returns (n: int)
      modifies this`console
      requires Valid()
      ensures n == Min(len as int, PrintMax)
      ensures console == old(console) + cmd[DataAt + 2..DataAt + 2 + n]
    {
      n := 0;
      while n < len as int && n + DataAt + 2 < Size
        invariant 0 <= n <= Min(len as int, PrintMax)
        invariant console == old(console) + cmd[DataAt + 2..DataAt + 2 + n]
      {
        console := console + [cmd[n + DataAt + 2]];
        n := n + 1;
      }
    }

    /** `cmd_fan_get`. */
    method ReadFan() returns (res: uint8)
      requires Valid()
      modifies cmd
      ensures (res, State()) == CmdFanGet(old(State()))
    {
      match cmd[DataAt]
      case 0 =>
        cmd[DataAt + 1] := pwm.cpu1;
        res := ResOk;
      case 1 =>
        cmd[DataAt + 1] := pwm.gpu1;
        res := ResOk;
      case _ =>
        res := ResErr;
    }

    /** `cmd_fan_set`. */
    method WriteFan(cfg: Config) returns (res: uint8)
      requires Valid()
      modifies this`pwm
      ensures (res, State()) == CmdFanSet(old(State()), cfg)
    {
      match cmd[DataAt]
      case 0 =>
        pwm := pwm.(cpu1 := cmd[DataAt + 1]);
        if cfg.cpuFan2 {
          pwm := pwm.(cpu2 := cmd[DataAt + 1]);
        }
        res := ResOk;
      case 1 =>
        pwm := pwm.(gpu1 := cmd[DataAt + 1]);
        res := ResOk;
      case _ =>
        res := ResErr;
    }

    /** `cmd_keymap_get`: the key goes out low byte first. */
    method ReadKey(svc: Services) returns (res: uint8)
      requires Valid()
      modifies cmd
      ensures (res, State()) == CmdKeymapGet(old(State()), svc)
    {
      match svc.keymapGet(cmd[DataAt], cmd[DataAt + 1], cmd[DataAt + 2])
      case Some(key) =>
        cmd[DataAt + 3] := KeyLow(key);
        cmd[DataAt + 4] := KeyHigh(key);
        res := ResOk;
      case None =>
        res := ResErr;
    }

    /** `cmd_keymap_set`: the key comes in low byte first. */
    method WriteKey(svc: Services) returns (res: uint8)
      requires Valid()
      modifies this`log
      ensures (res, State()) == CmdKeymapSet(old(State()), svc)
    {
      var layer, output, input := cmd[DataAt], cmd[DataAt + 1], cmd[DataAt + 2];
      var key := KeyOf(cmd[DataAt + 3], cmd[DataAt + 4]);
      ghost var before := log;
      log := log + [KeymapWrite(layer, output, input, key)];
      if svc.keymapSet(layer, output, input, key) {
        log := log + [SaveConfig];
        assert log == before + [KeymapWrite(layer, output, input, key), SaveConfig];
        res := if svc.saveConfig then ResOk else ResErr;
      } else {
        res := ResErr;
      }
    }

    /** `cmd_matrix_get`: the matrix size, then each row that fits. */
    method ReadMatrix(cfg: Config, svc: Services) returns (res: uint8)
      requires Valid() && Fits(cfg, svc)
      modifies cmd
      ensures (res, State()) == CmdMatrixGet(old(State()), cfg, svc)
    {
      cmd[DataAt] := cfg.kmOut;
      cmd[DataAt + 1] := cfg.kmIn;
      CopyRows(svc.matrix);
      assert cmd[..] == MatrixRegion(old(cmd[..]), cfg, svc.matrix);
      res := ResOk;
    }

    /** The loop of `cmd_matrix_get`: row `r` goes to DATA+2+r when that
        index is inside the region. */
    method CopyRows(matrix: seq<uint8>)
      requires Valid()
      modifies cmd
      ensures forall k :: 0 <= k < Size ==>
        cmd[k] == if DataAt + 2 <= k < DataAt + 2 + |matrix| then matrix[k - DataAt - 2] else old(cmd[k])
    {
      var row := 0;
      while row < |matrix|
        invariant 0 <= row <= |matrix|
        invariant forall k :: 0 <= k < Size ==>
          cmd[k] == if DataAt + 2 <= k < DataAt + 2 + row then matrix[k - DataAt - 2] else old(cmd[k])
      {
        if DataAt + 2 + row < Size {
          cmd[DataAt + 2 + row] := matrix[row];
        }
        row := row + 1;
      }
    }

    /** `cmd_fan_curve_set`, answering `RES_ERR` when the chosen driver's
        setter refuses the points. */
    method WriteCurve(cfg: Config, svc: Services) returns (res: uint8)
      requires Valid()
      modifies cpu.fan.points, gpu.fan.points
      ensures (res, State()) == CmdFanCurveSet(old(State()), cfg, svc)
    {
      var points: seq<FanPoint> := [];
      var i := 0;
      while i < 4
        invariant 0 <= i <= 4 && points == CurvePoints(cmd[..])[..i]
      {
        points := points + [FanPoint(cmd[2 * i + DataAt + 1] as int as int16, PercentToDuty(cmd[2 * i + DataAt + 2] as int))];
        i := i + 1;
      }
      assert points == CurvePoints(cmd[..]);
      if !svc.pointsValid(points) {
        return ResErr;
      }
      if cmd[DataAt] == 0 {
        var status := cpu.fan.SetPoints(4, points);
        res := if status == 0 then ResOk else ResErr;
      } else if cmd[DataAt] == 1 && cfg.haveDgpu {
        var status := gpu.fan.SetPoints(4, points);
        res := if status == 0 then ResOk else ResErr;
      } else {
        res := ResErr;
      }
    }

    /** `cmd_option_set`. */
    method WriteOption(svc: Services) returns (res: uint8)
      requires Valid()
      modifies this`log
      ensures (res, State()) == CmdOptionSet(old(State()), svc)
    {
      var index, value := cmd[DataAt], cmd[DataAt + 1];
      log := log + [OptionWrite(index, value)];
      res := if svc.optionSet(index, value) then ResOk else ResErr;
    }
  }
}
