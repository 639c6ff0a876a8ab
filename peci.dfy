/** The CPU fan driver over PECI (board/system76/common/peci.c).

    PECI reaches the CPU either through the eSPI out-of-band channel (the
    request is staged in the `UDB` buffer, the reply read from `PUTOOBDB`)
    or through the EC's legacy PECI pins (bytes pushed into the `HOWRDR`
    write FIFO and popped from `HORDDR`). The register handshakes and
    busy-waits are not modelled: what the hardware answers (a timeout, a
    status register, a completion code, the reply bytes) is an input. */
module Peci {
  import opened Bits
  import opened Platform
  import Espi
  import opened Fan

  /** Which bus the board routes PECI over (`CONFIG_BUS_ESPI`). */
  datatype Bus = EspiBus | LegacyBus

  /** What `peci_available` looks at: the power state after
      `update_power_state`, the eSPI host-reset flag, the index registers of
      the PLTRST# and HOST_C10 virtual wires, and the PLT_RST# pin. */
  datatype Signals = Signals(power: PowerState, hostReset: bool, pltRstIndex: bv8, hostC10Index: bv8, pltRstPin: bool)

  /** `peci_available`: PECI is only useful in S0, and then, on eSPI, when
      the host is not being reset, PLTRST# reads HIGH and the CPU is not in
      C10 (a PECI request would wake it); on the legacy bus, when PLT_RST#
      is high. */
  predicate Available(bus: Bus, s: Signals)
  {
    s.power == S0 &&
    match bus
    case EspiBus =>
      !s.hostReset && Espi.VwGet(s.pltRstIndex, Espi.PltRstN) == Espi.High &&
      Espi.VwGet(s.hostC10Index, Espi.HostC10) != Espi.High
    case LegacyBus => s.pltRstPin
  }

  /** PECI is never available outside S0, whatever the bus says. */
  lemma AvailableOnlyInS0(bus: Bus, s: Signals)
    ensures Available(bus, s) ==> s.power == S0
    ensures bus.EspiBus? && Available(bus, s) ==>
      !s.hostReset && Espi.VwGet(s.pltRstIndex, Espi.PltRstN) == Espi.High
  {
  }

  // ---------------------------------------------------------------------
  // Temperature

  /** `((int16_t)high << 8) | (int16_t)low` on a 16-bit `int`: the value
      whose two's-complement pattern is `high:low`. */
  function TempFromBytes(low: bv8, high: bv8): (t: int16)
    ensures t as int + (if t < 0 then 0x10000 else 0) == high as int * 0x100 + low as int
    ensures (t < 0) == (high >= 0x80)
  {
    var h, l := high as int, low as int;
    if h < 0x80 then (h * 0x100 + l) as int16 else (h * 0x100 + l - 0x10000) as int16
  }

  /** What the eSPI out-of-band channel gave back: nothing before the
      timeout, or a reply of `len` bytes held in `data` (`PUTOOBDB`). */
  datatype Transfer = Timeout | Reply(len: bv8, data: seq<bv8>)

  predicate WellFormedTransfer(t: Transfer)
  {
    t.Reply? ==> |t.data| >= 7
  }

  /** `peci_get_temp` over eSPI: a timeout or a reply shorter than 7 bytes is
      a failure; otherwise bytes 5 and 6 are the low and high byte. */
  function EspiGetTemp(t: Transfer): (r: Option<int16>)
    requires WellFormedTransfer(t)
    ensures r.Some? <==> t.Reply? && t.len >= 7
    ensures r.Some? ==> r.value == TempFromBytes(t.data[5], t.data[6])
  {
    match t
    case Timeout => None
    case Reply(len, data) => if len >= 7 then Some(TempFromBytes(data[5], data[6])) else None
  }

  /** A hardware error in the PECI status register (`HOSTAR & 0xEC`). */
  predicate HardwareFault(status: bv8)
  {
    status & 0xEC != 0
  }

  /** `peci_get_temp` on the legacy bus: `low` and `high` are the two bytes
      `HORDDR` yields, in that order. */
  function LegacyGetTemp(status: bv8, low: bv8, high: bv8): (r: Option<int16>)
    ensures r.Some? <==> !HardwareFault(status)
    ensures r.Some? ==> r.value == TempFromBytes(low, high)
  {
    if HardwareFault(status) then None else Some(TempFromBytes(low, high))
  }

  /** What the last GetTemp transaction gave back on either bus. */
  datatype TempReading = EspiTemp(transfer: Transfer) | LegacyTemp(status: bv8, low: bv8, high: bv8)

  /** A reading that came over the bus in use. */
  predicate ReadOn(bus: Bus, reading: TempReading)
  {
    (bus.EspiBus? <==> reading.EspiTemp?) && (reading.EspiTemp? ==> WellFormedTransfer(reading.transfer))
  }

  /** `peci_get_temp` on the bus the board was built for. */
  function GetTemp(reading: TempReading): (r: Option<int16>)
    requires reading.EspiTemp? ==> WellFormedTransfer(reading.transfer)
    ensures reading.EspiTemp? ==> r == EspiGetTemp(reading.transfer)
    ensures reading.LegacyTemp? ==> r == LegacyGetTemp(reading.status, reading.low, reading.high)
  {
    match reading
    case EspiTemp(t) => EspiGetTemp(t)
    case LegacyTemp(status, low, high) => LegacyGetTemp(status, low, high)
  }

  /** `t_junction + (offset >> 6)`: the GetTemp reading is a negative offset
      below the junction temperature in 1/64 degree, and `>>` on a negative
      `int16_t` shifts arithmetically, rounding down. */
  function JunctionTemp(tJunction: bv8, offset: int16): (t: int16)
    ensures var q := t as int - tJunction as int; q * 64 <= offset as int < q * 64 + 64
  {
    (tJunction as int + offset as int / 64) as int16
  }

  // ---------------------------------------------------------------------
  // Package configuration requests

  /** The request body of WrPkgConfig: host id 0, the index, the parameter
      (low byte first) and the data (least significant byte first). */
  function WrPayload(index: bv8, param: bv16, data: bv32): (p: seq<bv8>)
  {
    [0, index] + Le16(param) + Le32(data)
  }

  /** Each field of the WrPkgConfig body can be read back from its bytes. */
  lemma WrPayloadFields(index: bv8, param: bv16, data: bv32)
    ensures var p := WrPayload(index, param, data);
      |p| == 8 && p[0] == 0 && p[1] == index &&
      FromLe16(p[2], p[3]) == param && FromLe32(p[4..8]) == data
  {
    var p := WrPayload(index, param, data);
    Le16RoundTrip(param);
    assert p[4..8] == Le32(data);
    Le32RoundTrip(data);
  }

  /** The eSPI OOB header of WrPkgConfig: PCH address, PECI command code,
      byte count 13, EC address, PECI target 0x30, write length 10, read
      length 1 and the WrPkgConfig command 0xA5. */
  const WrHeader: seq<bv8> := [0x20, 0x01, 13, 0x1F, 0x30, 10, 1, 0xA5]

  /** `peci_wr_pkg_config` over eSPI: the 16 request bytes staged in `UDB`,
      header then body; the rest of the buffer is left alone. */
  method StageWrRequest(udb: array<bv8>, index: bv8, param: bv16, data: bv32)
    requires udb.Length >= 16
    modifies udb
    ensures forall k :: 0 <= k < 16 ==> udb[k] == (WrHeader + WrPayload(index, param, data))[k]
    ensures forall k :: 16 <= k < udb.Length ==> udb[k] == old(udb[k])
  {
    var body := PushWrRequest(index, param, data);
    StageWrHeader(udb);
    StageWrBody(udb, index, body[2], body[3], body[4..]);
  }

  method StageWrHeader(udb: array<bv8>)
    requires udb.Length >= 16
    modifies udb
    ensures forall k :: 0 <= k < 8 ==> udb[k] == WrHeader[k]
    ensures forall k :: 8 <= k < udb.Length ==> udb[k] == old(udb[k])
  {
    udb[0] := 0x10 << 1;
    udb[1] := 0x01;
    udb[2] := 13;
    udb[3] := (0x0F << 1) | 1;
    udb[4] := 0x30;
    udb[5] := 10;
    udb[6] := 1;
    udb[7] := 0xA5;
  }

  /** The body after the header: host id, index, the parameter bytes `lo`,
      `hi` and the data bytes `d`, least significant first. */
  method StageWrBody(udb: array<bv8>, index: bv8, lo: bv8, hi: bv8, d: seq<bv8>)
    requires udb.Length >= 16 && |d| == 4
    modifies udb
    ensures udb[8] == 0 && udb[9] == index && udb[10] == lo && udb[11] == hi
    ensures udb[12] == d[0] && udb[13] == d[1] && udb[14] == d[2] && udb[15] == d[3]
    ensures forall k :: 0 <= k < udb.Length && !(8 <= k < 16) ==> udb[k] == old(udb[k])
  {
    udb[8] := 0;
    udb[9] := index;
    udb[10] := lo;
    udb[11] := hi;
    udb[12] := d[0];
    udb[13] := d[1];
    udb[14] := d[2];
    udb[15] := d[3];
  }

  /** The payload byte by byte, as both buses write it. */
  lemma WrPayloadBytes(index: bv8, param: bv16, data: bv32)
    ensures WrPayload(index, param, data) ==
      [0, index, (param & 0xFF) as bv8, (param >> 8) as bv8, (data & 0xFF) as bv8,
       ((data >> 8) & 0xFF) as bv8, ((data >> 16) & 0xFF) as bv8, (data >> 24) as bv8]
  {
  }

  /** `peci_wr_pkg_config` on the legacy bus: the bytes pushed into `HOWRDR`,
      in order. */
  method PushWrRequest(index: bv8, param: bv16, data: bv32) returns (fifo: seq<bv8>)
    ensures fifo == WrPayload(index, param, data)
  {
    fifo := [0];
    fifo := fifo + [index];
    fifo := fifo + [(param & 0xFF) as bv8];
    fifo := fifo + [(param >> 8) as bv8];
    fifo := fifo + [(data & 0xFF) as bv8];
    fifo := fifo + [((data >> 8) & 0xFF) as bv8];
    fifo := fifo + [((data >> 16) & 0xFF) as bv8];
    fifo := fifo + [(data >> 24) as bv8];
  }

  /** The request body of RdPkgConfig: host id 0, the index and the
      parameter, low byte first. */
  function RdPayload(index: bv8, param: bv16): (p: seq<bv8>)
  {
    [0, index] + Le16(param)
  }

  /** RdPkgConfig asks with the same leading fields as WrPkgConfig. */
  lemma RdPayloadIsWrPrefix(index: bv8, param: bv16, data: bv32)
    ensures RdPayload(index, param) == WrPayload(index, param, data)[..4]
  {
  }

  /** `peci_rd_pkg_config` on the legacy bus: the bytes pushed into
      `HOWRDR`. */
  method PushRdRequest(index: bv8, param: bv16) returns (fifo: seq<bv8>)
    ensures fifo == RdPayload(index, param)
  {
    fifo := [0];
    fifo := fifo + [index];
    fifo := fifo + [(param & 0xFF) as bv8];
    fifo := fifo + [(param >> 8) as bv8];
  }

  /** `-(0x1000 | status)`: a hardware error; `status` fits in the low byte,
      so the bit-or is a sum. */
  function HardwareError(status: bv8): (r: int16)
    ensures -0x10FF <= r as int <= -0x1000
  {
    -(0x1000 + status as int) as int16
  }

  /** The completion code that means "command passed". */
  const CommandPassed: bv8 := 0x40

  /** Byte `x` moved to byte position `k` of a 32-bit value. */
  function Place(x: bv8, k: nat): bv32
    requires k < 4
  {
    if k == 0 then x as bv32 else if k == 1 then (x as bv32) << 8
    else if k == 2 then (x as bv32) << 16 else (x as bv32) << 24
  }

  /** `(uint32_t)x << (8 * k)` */
  lemma PlaceShift(x: bv8, k: bv8)
    requires k < 4
    ensures (x as bv32) << (8 * k) == Place(x, k as int)
  {
    if k == 0 {
    } else if k == 1 {
    } else if k == 2 {
    } else {
    }
  }

  /** The first `n` reply bytes ORed into place, least significant first. */
  function Gathered(bytes: seq<bv8>, n: nat): bv32
    requires n <= |bytes| && n <= 4
  {
    if n == 0 then 0 else Gathered(bytes, n - 1) | Place(bytes[n - 1], n - 1)
  }

  lemma GatheredAll(bytes: seq<bv8>)
    requires |bytes| == 4
    ensures Gathered(bytes, 4) == FromLe32(bytes)
  {
    assert Gathered(bytes, 1) == bytes[0] as bv32;
    assert Gathered(bytes, 2) == (bytes[0] as bv32) | ((bytes[1] as bv32) << 8);
    assert Gathered(bytes, 3) == (bytes[0] as bv32) | ((bytes[1] as bv32) << 8) | ((bytes[2] as bv32) << 16);
  }

  /** `peci_rd_pkg_config` on the legacy bus, once the last attempt has
      finished with `status` and completion code `cc`; `reply` holds the four
      data bytes `HORDDR` would yield. `*value` is cleared first and only
      filled when the command passed. */
  method RdPkgConfig(status: bv8, cc: bv8, reply: seq<bv8>) returns (r: int16, value: bv32)
    requires |reply| == 4
    ensures HardwareFault(status) ==> r == HardwareError(status) && value == 0
    ensures !HardwareFault(status) && cc != CommandPassed ==> r == -(cc as int) as int16 && value == 0
    ensures !HardwareFault(status) && cc == CommandPassed ==> r == 0 && value == FromLe32(reply)
    // A failure is negative and leaves the value 0; hardware faults and
    // refused commands are told apart by the size of the code.
    ensures r < 0 ==> value == 0
    ensures r as int <= -0x1000 <==> HardwareFault(status)
    ensures -0xFF <= r as int <= -1 <==> !HardwareFault(status) && cc != CommandPassed && cc != 0
    ensures r >= 0 <==> !HardwareFault(status) && (cc == CommandPassed || cc == 0)
  {
    value := 0;
    if HardwareFault(status) {
      return HardwareError(status), value;
    }
    if cc != CommandPassed {
      return -(cc as int) as int16, value;
    }
    var i: bv8 := 0;
    while i < 4
      invariant i <= 4 && value == Gathered(reply, i as int)
    {
      PlaceShift(reply[i], i);
      value := value | ((reply[i] as bv32) << (8 * i));
      i := i + 1;
    }
    GatheredAll(reply);
    return 0, value;
  }

  /** `peci_wr_pkg_config` on the legacy bus, once the last attempt has
      finished with `status` and completion code `cc`. */
  function LegacyWrPkgConfig(status: bv8, cc: bv8): (r: int16)
  {
    if HardwareFault(status) then HardwareError(status)
    else if cc == CommandPassed then CommandPassed as int16
    else -(cc as int) as int16
  }

  /** The legacy WrPkgConfig answers the passed code 0x40 exactly when the
      hardware and the command succeed, and something negative otherwise
      (a refused command with code 0 aside). */
  lemma LegacyWrPkgConfigSign(status: bv8, cc: bv8)
    ensures LegacyWrPkgConfig(status, cc) == 0x40 <==> !HardwareFault(status) && cc == CommandPassed
    ensures LegacyWrPkgConfig(status, cc) > 0 ==> LegacyWrPkgConfig(status, cc) == 0x40
    ensures HardwareFault(status) ==> LegacyWrPkgConfig(status, cc) <= -0x1000
  {
  }

  /** `peci_wr_pkg_config` over eSPI as written: a timeout returns `false`,
      which is 0; a reply shorter than 6 bytes returns -0x1000; otherwise the
      completion code in byte 5, negated when its bit 7 (an error) is set. */
  function EspiWrPkgConfigAsWritten(t: Transfer): (r: int16)
    requires WellFormedTransfer(t)
  {
    match t
    case Timeout => 0
    case Reply(len, data) => EspiWrReply(len, data)
  }

  function EspiWrReply(len: bv8, data: seq<bv8>): (r: int16)
    requires |data| >= 7
    ensures len >= 6 && data[5] & 0x80 == 0 <==> r >= 0
  {
    if len < 6 then -0x1000
    else
      var cc := data[5];
      if cc & 0x80 != 0 then -(cc as int) as int16 else cc as int16
  }

  /** The timeout result breaks the documented contract (negative on
      error): a request that got no reply reads as success. */
  lemma EspiWrTimeoutLooksLikeSuccess()
    ensures EspiWrPkgConfigAsWritten(Timeout) >= 0
  {
  }

  /** `peci_wr_pkg_config` over eSPI with the timeout reported as the
      reply-too-short error, -0x1000. */
  function EspiWrPkgConfig(t: Transfer): (r: int16)
    requires WellFormedTransfer(t)
    ensures r >= 0 <==> t.Reply? && t.len >= 6 && t.data[5] & 0x80 == 0
    ensures t.Reply? ==> r == EspiWrPkgConfigAsWritten(t)
  {
    match t
    case Timeout => -0x1000
    case Reply(len, data) => EspiWrReply(len, data)
  }

  // ---------------------------------------------------------------------
  // Fan duty

  /** The reading behind a PECI fan duty: PECI unavailable (fan off), the
      GetTemp request failed (half speed), or a junction temperature. */
  function BaseDuty(available: bool, offset: Option<int16>, tJunction: bv8, curve: seq<FanPoint>, lookup: CurveDuty): (r: (int16, uint8))
    ensures !available ==> r == (0, DutyOff)
    ensures available && offset.None? ==> r == (0, DutyHalf)
    ensures available && offset.Some? ==>
      r.0 == JunctionTemp(tJunction, offset.value) && r.1 == lookup(curve, r.0)
  {
    if !available then (0, DutyOff)
    else if offset.None? then (0, DutyHalf)
    else var t := JunctionTemp(tJunction, offset.value); (t, lookup(curve, t))
  }

  /** The CPU fan driver's state: `peci_on`, `peci_temp`, `t_junction` and
      the curve. */
  class Driver {
    var on: bool
    var temp: int16
    var tJunction: bv8
    const fan: Curve

    /** The default CPU curve: 25% up to 65 C, 30% to 75 C, 35% to 100 C,
        then full speed (as duties, `PWM_DUTY` of those percentages). */
    constructor ()
      ensures !on && temp == 0 && tJunction == 100
      ensures fan.points[..] == [FanPoint(0, 64), FanPoint(65, 77), FanPoint(75, 90), FanPoint(100, 255)]
    {
      on, temp, tJunction := false, 0, 100;
      fan := new Curve([FanPoint(0, 64), FanPoint(65, 77), FanPoint(75, 90), FanPoint(100, 255)]);
    }

    /** `peci_get_fan_duty`: `available` is what `peci_available` says and
        `offset` what `peci_get_temp` returns (consulted only when PECI is
        available). */
    method GetFanDuty(available: bool, offset: Option<int16>, fanMax: bool, lookup: CurveDuty, filters: Filters)
      returns (d: Duty)
      modifies this`on, this`temp
      ensures on == available
      ensures (temp, d) == var b := BaseDuty(available, offset, tJunction, fan.points[..], lookup);
        (b.0, Override(b.1, available, fanMax, filters))
    {
      on := available;
      var duty: uint8;
      if on {
        if offset.Some? {
          temp := JunctionTemp(tJunction, offset.value);
          duty := lookup(fan.points[..], temp);
        } else {
          temp := 0;
          duty := DutyHalf;
        }
      } else {
        temp := 0;
        duty := DutyOff;
      }
      if on && fanMax {
        d := Duty(DutyFull, false);
      } else {
        d := Duty(filters(duty), true);
      }
    }
    /** `peci_get_fan_duty` with its own calls: `peci_available` on the
        signals, then `peci_get_temp` only when PECI is available. */
    method Sample(bus: Bus, s: Signals, reading: TempReading, fanMax: bool, lookup: CurveDuty, filters: Filters)
      returns (d: Duty)
      requires ReadOn(bus, reading)
      modifies this`on, this`temp
      ensures on == Available(bus, s) && (on ==> s.power == S0)
      ensures (temp, d) == var b := BaseDuty(on, GetTemp(reading), tJunction, fan.points[..], lookup);
        (b.0, Override(b.1, on, fanMax, filters))
    {
      var available := Available(bus, s);
      AvailableOnlyInS0(bus, s);
      var offset := if available then GetTemp(reading) else None;
      d := GetFanDuty(available, offset, fanMax, lookup, filters);
    }
  }

  /** With the fans forced to maximum while PECI is up the duty is full and
      the filters are bypassed; with PECI down the fan is asked to stop and
      the forced maximum is ignored. */
  lemma FanMaxOverrides(available: bool, offset: Option<int16>, tJunction: bv8, curve: seq<FanPoint>, lookup: CurveDuty, fanMax: bool, filters: Filters)
    ensures var b := BaseDuty(available, offset, tJunction, curve, lookup);
      var d := Override(b.1, available, fanMax, filters);
      (available && fanMax ==> d == Duty(DutyFull, false)) &&
      (!available ==> d == Duty(filters(DutyOff), true) && b.0 == 0)
  {
  }

  /** Outside S0 the driver reports PECI down: the fan is asked to stop,
      the temperature reads 0 and the forced maximum is ignored, whatever
      the bus and the reading. */
  lemma OffOutsideS0(bus: Bus, s: Signals, reading: TempReading, tJunction: bv8, curve: seq<FanPoint>, lookup: CurveDuty, fanMax: bool, filters: Filters)
    requires ReadOn(bus, reading) && s.power != S0
    ensures var on := Available(bus, s);
      var b := BaseDuty(on, GetTemp(reading), tJunction, curve, lookup);
      !on && b.0 == 0 && Override(b.1, on, fanMax, filters) == Duty(filters(DutyOff), true)
  {
    AvailableOnlyInS0(bus, s);
  }
}
