/** The SMFI host command mailbox and debug ring
    (board/system76/common/smfi.c), as values.

    The host and the EC share two 256-byte regions of EC RAM. In the
    command region, byte 0 is the command (`CMD_NONE` when the EC is
    idle), byte 1 the result and bytes 2.. the data. The host fills the data,
    then writes a command; the EC handles it, writes the result and finally
    clears the command byte. The debug region is a ring of bytes the EC
    prints; byte 0 holds the index of the last byte written.

    The command codes are defined in common/command.h, which is not part of
    this model: they are the parameter `decode` of `Config`. What the
    handlers ask of other parts of the firmware (the keymap store, the
    options store, the curve validator, the keyboard matrix, the board and
    version strings) are the answers in `Services`; the calls with an effect
    outside the buffer are recorded in order in the box's `log`. */
module Smfi {
  import opened Platform
  import opened Fan

  /** The size of each region. */
  const Size := 256

  /** Offsets in the command region: `SMFI_CMD_CMD`, `SMFI_CMD_RES` and
      `SMFI_CMD_DATA`. */
  const CmdAt := 0
  const ResAt := 1
  const DataAt := 2

  /** `enum Result` and `CMD_NONE`. */
  const ResOk: uint8 := 0
  const ResErr: uint8 := 1
  const CmdNone: uint8 := 0

  /** The contents of a region. */
  type Region = s: seq<uint8> | |s| == Size witness Zeros()

  function Zeros(): (z: seq<uint8>)
    ensures |z| == Size && forall k :: 0 <= k < Size ==> z[k] == 0
  {
    seq(Size, k => 0)
  }

  /** The commands this firmware handles (the security commands of
      `CONFIG_SECURITY` are not part of this model). */
  datatype Command =
    | Probe | Board | Version | Print | Spi | Reset | FanGet | FanSet
    | KeymapGet | KeymapSet | MatrixGet | FanCurveSet
    | CameraEnablementSet | WifiBtEnablementSet | OptionGet | OptionSet

  /** Build-time facts: which byte codes which command, whether the board has
      a second CPU fan (`CPU_FAN2`) and a dGPU (`HAVE_DGPU`), the bit of
      `CMD_SPI_FLAG_SCRATCH` (as a mask), and the matrix size `KM_OUT` x `KM_IN`. */
  datatype Config = Config(decode: uint8 -> Option<Command>, cpuFan2: bool, haveDgpu: bool,
                           spiScratch: uint8, kmOut: uint8, kmIn: uint8)

  /** What the other parts of the firmware answer during one command.
      `keymapGet(layer, output, input)` is `keymap_get` (the key, if the
      position exists), `keymapSet` is whether `keymap_set` accepted the
      key, `saveConfig` whether `keymap_save_config` succeeded, `pointsValid`
      is `fan_points_are_valid`, `optionGet` the low byte of `options_get`,
      `optionSet` whether `options_set` succeeded and `matrix` is
      `kbscan_matrix`. The handlers widen the keymap coordinates from bytes
      to `int16_t`, which keeps their values. */
  datatype Services = Services(
    board: seq<uint8>, version: seq<uint8>,
    keymapGet: (uint8, uint8, uint8) -> Option<uint16>,
    keymapSet: (uint8, uint8, uint8, uint16) -> bool,
    saveConfig: bool,
    pointsValid: seq<FanPoint> -> bool,
    optionGet: uint8 -> uint8,
    optionSet: (uint8, uint8) -> bool,
    matrix: seq<uint8>)

  /** The matrix snapshot has one byte per output line. */
  predicate Fits(cfg: Config, svc: Services)
  {
    |svc.matrix| == cfg.kmOut as int
  }

  /** The duty registers `PWM_REG(CPU_FAN1)`, `PWM_REG(CPU_FAN2)` and
      `PWM_REG(GPU_FAN1)`. */
  datatype Pwm = Pwm(cpu1: uint8, cpu2: uint8, gpu1: uint8)

  /** Calls whose effect lies outside the command region. */
  datatype Effect =
    | KeymapWrite(layer: uint8, output: uint8, input: uint8, key: uint16)
    | SaveConfig
    | Camera(on: bool)
    | Wireless(on: bool)
    | OptionWrite(index: uint8, value: uint8)
    | ScratchTrampoline
    | WatchdogReset

  /** Everything a command can change: the command region, the duty
      registers, the CPU and dGPU fan curves, the calls made and the bytes
      printed with `putchar`. */
  datatype Box = Box(cmd: Region, pwm: Pwm, cpuCurve: seq<FanPoint>, gpuCurve: seq<FanPoint>,
                     log: seq<Effect>, console: seq<uint8>)

  // ---------------------------------------------------------------------
  // Handlers. Each returns the result byte and the box after it.

  /** `CMD_PROBE`: the signature 0x76 0xEC and protocol version 1. */
  function CmdProbe(b: Box): (uint8, Box)
  {
    (ResOk, b.(cmd := b.cmd[DataAt := 0x76][DataAt + 1 := 0xEC][DataAt + 2 := 0x01]))
  }

  /** The bytes of a C string: everything before its first NUL (or all of
      it when it has none). */
  function CString(s: seq<uint8>): (r: seq<uint8>)
    ensures |r| <= |s| && r == s[..|r|]
    ensures forall i :: 0 <= i < |r| ==> r[i] != 0
    ensures |r| < |s| ==> s[|r|] == 0
  {
    if |s| == 0 || s[0] == 0 then [] else [s[0]] + CString(s[1..])
  }

  /** `strncpy(&smfi_cmd[SMFI_CMD_DATA], s, 254)`: the string, then NUL
      padding up to the end of the region. */
  function CopyString(cmd: Region, s: seq<uint8>): Region
  {
    var str := CString(s);
    seq(Size, k requires 0 <= k < Size => if k < DataAt then cmd[k] else if k - DataAt < |str| then str[k - DataAt] else 0)
  }

  /** `CMD_BOARD` and `CMD_VERSION`. */
  function CmdString(b: Box, s: seq<uint8>): (uint8, Box)
  {
    (ResOk, b.(cmd := CopyString(b.cmd, s)))
  }

  /** The most bytes `cmd_print` can take: those after DATA+1. */
  const PrintMax := Size - DataAt - 2

  function Min(a: int, b: int): int
  {
    if a <= b then a else b
  }

  /** `cmd_print`: print the first `len` bytes after DATA+1, as many as fit,
      and report how many were printed in DATA+1. */
  function CmdPrint(b: Box): (uint8, Box)
  {
    var n := Min(b.cmd[DataAt + 1] as int, PrintMax);
    (ResOk, b.(cmd := b.cmd[DataAt + 1 := n as uint8], console := b.console + b.cmd[DataAt + 2..DataAt + 2 + n]))
  }

  /** `cmd_fan_get`: fan 0 reads the first CPU fan's duty, fan 1 the GPU
      fan's. */
  function CmdFanGet(b: Box): (uint8, Box)
  {
    match b.cmd[DataAt]
    case 0 => (ResOk, b.(cmd := b.cmd[DataAt + 1 := b.pwm.cpu1]))
    case 1 => (ResOk, b.(cmd := b.cmd[DataAt + 1 := b.pwm.gpu1]))
    case _ => (ResErr, b)
  }

  /** `cmd_fan_set`: fan 0 sets both CPU fans (the second when the board has
      one), fan 1 the GPU fan. */
  function CmdFanSet(b: Box, cfg: Config): (uint8, Box)
  {
    var duty := b.cmd[DataAt + 1];
    match b.cmd[DataAt]
    case 0 => (ResOk, b.(pwm := b.pwm.(cpu1 := duty, cpu2 := if cfg.cpuFan2 then duty else b.pwm.cpu2)))
    case 1 => (ResOk, b.(pwm := b.pwm.(gpu1 := duty)))
    case _ => (ResErr, b)
  }

  /** `(uint8_t)key` and `(uint8_t)(key >> 8)`: the low and the high byte
      of a key. */
  function KeyLow(key: uint16): uint8
  {
    (key % 0x100) as uint8
  }

  function KeyHigh(key: uint16): uint8
  {
    (key / 0x100) as uint8
  }

  /** `lo | (hi << 8)` on 16 bits: the two bytes do not overlap. */
  function KeyOf(lo: uint8, hi: uint8): uint16
  {
    (lo as int + 0x100 * hi as int) as uint16
  }

  /** `cmd_keymap_get`: the key at (layer, output, input) = DATA..DATA+2,
      little-endian in DATA+3 and DATA+4. */
  function CmdKeymapGet(b: Box, svc: Services): (uint8, Box)
  {
    match svc.keymapGet(b.cmd[DataAt], b.cmd[DataAt + 1], b.cmd[DataAt + 2])
    case Some(key) => (ResOk, b.(cmd := b.cmd[DataAt + 3 := KeyLow(key)][DataAt + 4 := KeyHigh(key)]))
    case None => (ResErr, b)
  }

  /** `cmd_keymap_set`: store the little-endian key of DATA+3 and DATA+4,
      then save the keymap; success needs both. */
  function CmdKeymapSet(b: Box, svc: Services): (uint8, Box)
  {
    var (layer, output, input) := (b.cmd[DataAt], b.cmd[DataAt + 1], b.cmd[DataAt + 2]);
    var key := KeyOf(b.cmd[DataAt + 3], b.cmd[DataAt + 4]);
    var write := KeymapWrite(layer, output, input, key);
    if svc.keymapSet(layer, output, input, key) then
      (if svc.saveConfig then ResOk else ResErr, b.(log := b.log + [write, SaveConfig]))
    else
      (ResErr, b.(log := b.log + [write]))
  }

  /** The command region after `cmd_matrix_get`: `KM_OUT` and `KM_IN`, then
      one byte per output line for the lines that fit. */
  function MatrixRegion(cmd: Region, cfg: Config, matrix: seq<uint8>): Region
    requires |matrix| == cfg.kmOut as int
  {
    seq(Size, k requires 0 <= k < Size =>
      if k == DataAt then cfg.kmOut
      else if k == DataAt + 1 then cfg.kmIn
      else if DataAt + 2 <= k < DataAt + 2 + |matrix| then matrix[k - DataAt - 2]
      else cmd[k])
  }

  function CmdMatrixGet(b: Box, cfg: Config, svc: Services): (uint8, Box)
    requires Fits(cfg, svc)
  {
    (ResOk, b.(cmd := MatrixRegion(b.cmd, cfg, svc.matrix)))
  }

  /** The 16-bit two's-complement value of `x`: what `int` arithmetic gives
      on the 8051. */
  function Wrap16(x: int): int16
  {
    ((x + 0x8000) % 0x10000 - 0x8000) as int16
  }

  /** C's `/`, which truncates toward zero. */
  function CDiv(a: int, d: int): int
    requires d > 0
  {
    if a >= 0 then a / d else -((-a) / d)
  }

  /** `byte * 255 / 100` stored in a `uint8_t`: the product is a 16-bit
      `int`, the quotient truncates and the store keeps the low byte. */
  function PercentToDuty(p: int): uint8
    requires 0 <= p < 0x100
  {
    (CDiv(Wrap16(p * 255) as int, 100) % 0x100) as uint8
  }

  /** The four points `[temp0] [duty0] ... [temp3] [duty3]` after the fan
      index, duties given in percent. */
  function CurvePoints(cmd: Region): (points: seq<FanPoint>)
    ensures |points| == 4
  {
    seq(4, i requires 0 <= i < 4 =>
      FanPoint(cmd[2 * i + DataAt + 1] as int as int16, PercentToDuty(cmd[2 * i + DataAt + 2] as int)))
  }

  /** What `cmd_fan_curve_set` does before it picks a result: `None` when it
      refuses (invalid points, or a fan index without a curve), else the
      status of the curve setter it called and the box after it. */
  function ApplyCurve(b: Box, cfg: Config, svc: Services): Option<(int16, Box)>
  {
    var points := CurvePoints(b.cmd);
    if !svc.pointsValid(points) then None
    else if b.cmd[DataAt] == 0 then
      var (status, curve) := SetCurve(b.cpuCurve, 4, points);
      Some((status, b.(cpuCurve := curve)))
    else if b.cmd[DataAt] == 1 && cfg.haveDgpu then
      var (status, curve) := SetCurve(b.gpuCurve, 4, points);
      Some((status, b.(gpuCurve := curve)))
    else None
  }

  /** `cmd_fan_curve_set` as written: once a setter is called the result is
      `RES_OK`, whatever the setter returned. */
  function CmdFanCurveSetAsWritten(b: Box, cfg: Config, svc: Services): (uint8, Box)
  {
    match ApplyCurve(b, cfg, svc)
    case None => (ResErr, b)
    case Some((_, after)) => (ResOk, after)
  }

  /** `cmd_fan_curve_set` reporting the setter's refusal as `RES_ERR`. */
  function CmdFanCurveSet(b: Box, cfg: Config, svc: Services): (uint8, Box)
  {
    match ApplyCurve(b, cfg, svc)
    case None => (ResErr, b)
    case Some((status, after)) => (if status == 0 then ResOk else ResErr, after)
  }

  /** `cmd_camera_enablement_set` and `cmd_wifi_bt_enablement_set`: switch
      on for any non-zero DATA byte. */
  function CmdCamera(b: Box): (uint8, Box)
  {
    (ResOk, b.(log := b.log + [Camera(b.cmd[DataAt] != 0)]))
  }

  function CmdWireless(b: Box): (uint8, Box)
  {
    (ResOk, b.(log := b.log + [Wireless(b.cmd[DataAt] != 0)]))
  }

  /** `cmd_option_get`: the option indexed by DATA replaces DATA. */
  function CmdOptionGet(b: Box, svc: Services): (uint8, Box)
  {
    (ResOk, b.(cmd := b.cmd[DataAt := svc.optionGet(b.cmd[DataAt])]))
  }

  /** `cmd_option_set`: `!options_set(index, value)`, so `RES_OK` (0) on
      success and `RES_ERR` (1) on failure. */
  function CmdOptionSet(b: Box, svc: Services): (uint8, Box)
  {
    var (index, value) := (b.cmd[DataAt], b.cmd[DataAt + 1]);
    (if svc.optionSet(index, value) then ResOk else ResErr, b.(log := b.log + [OptionWrite(index, value)]))
  }

  /** `a & b != 0`: some bit is set in both. */
  predicate SharesBit(a: nat, b: nat)
  {
    a > 0 && b > 0 && ((a % 2 == 1 && b % 2 == 1) || SharesBit(a / 2, b / 2))
  }

  /** `cmd_spi` outside the scratch ROM: with the scratch flag it jumps to
      the scratch ROM; flashing itself is refused. */
  function CmdSpi(b: Box, cfg: Config): (uint8, Box)
  {
    (ResErr, if SharesBit(b.cmd[DataAt] as nat, cfg.spiScratch as nat) then b.(log := b.log + [ScratchTrampoline]) else b)
  }

  /** `cmd_reset`: arm the watchdog; reaching the return means it failed. */
  function CmdReset(b: Box): (uint8, Box)
  {
    (ResErr, b.(log := b.log + [WatchdogReset]))
  }

  /** The `switch` of `smfi_event`. */
  function Handle(b: Box, cfg: Config, svc: Services): (uint8, Box)
    requires Fits(cfg, svc)
  {
    match cfg.decode(b.cmd[CmdAt])
    case None => (ResErr, b)
    case Some(c) =>
      match c
      case Probe => CmdProbe(b)
      case Board => CmdString(b, svc.board)
      case Version => CmdString(b, svc.version)
      case Print => CmdPrint(b)
      case FanGet => CmdFanGet(b)
      case FanSet => CmdFanSet(b, cfg)
      case KeymapGet => CmdKeymapGet(b, svc)
      case KeymapSet => CmdKeymapSet(b, svc)
      case MatrixGet => CmdMatrixGet(b, cfg, svc)
      case FanCurveSet => CmdFanCurveSet(b, cfg, svc)
      case CameraEnablementSet => CmdCamera(b)
      case WifiBtEnablementSet => CmdWireless(b)
      case OptionGet => CmdOptionGet(b, svc)
      case OptionSet => CmdOptionSet(b, svc)
      case Spi => CmdSpi(b, cfg)
      case Reset => CmdReset(b)
  }

  /** `smfi_event`: nothing while the command byte is `CMD_NONE`; otherwise
      handle the command, store its result and mark it finished. */
  function Step(b: Box, cfg: Config, svc: Services): Box
    requires Fits(cfg, svc)
  {
    if b.cmd[CmdAt] == CmdNone then b
    else
      var (res, after) := Handle(b, cfg, svc);
      after.(cmd := after.cmd[ResAt := res][CmdAt := CmdNone])
  }

  // ---------------------------------------------------------------------
  // The debug ring.

  /** The contents of the debug region, `uint8_t` bytes on which the
      firmware does arithmetic. */
  type Ring = s: seq<uint8> | |s| == Size witness seq(Size, k => 0)

  /** The tail after `smfi_debug`: one on, wrapping from the last slot back
      to slot 1. */
  function NextTail(tail: uint8): uint8
  {
    var t := tail as int + 1;
    (if t >= Size then 1 else t) as uint8
  }

  /** `smfi_debug(byte)`: store the byte at the new tail, then the tail. */
  function DebugPush(dbg: Ring, byte: uint8): Ring
  {
    var t := NextTail(dbg[0]);
    dbg[t as int := byte][0 := t]
  }
}
