/** The discrete-GPU fan driver and the GPU power-limit level
    (board/system76/common/dgpu.c).

    The GPU temperature is read over I2C and the D-notify level tells the GPU
    driver how much power the charger can supply. The battery charger's
    readings, the GPIO levels and the I2C transfer are inputs here. */
module Dgpu {
  import opened Platform
  import opened Fan

  // ---------------------------------------------------------------------
  // D-notify level

  /** The board's minimum supply, in watts, for the levels D1 to D5
      (`D_NOTIFY_D1_MIN_W` ... `D_NOTIFY_D5_MIN_W`). */
  datatype Thresholds = Thresholds(d1: uint16, d2: uint16, d3: uint16, d4: uint16, d5: uint16)

  /** The minimum for the level with index `k` (0 for D1). */
  function MinWatts(t: Thresholds, k: nat): uint16
    requires k < 5
  {
    if k == 0 then t.d1 else if k == 1 then t.d2 else if k == 2 then t.d3 else if k == 3 then t.d4 else t.d5
  }

  /** `supply_watts`: milliamps times volts over 1000, computed on 32 bits
      and stored in 16. */
  function SupplyWatts(currentMa: uint16, voltageV: uint16): uint16
  {
    ((currentMa as int * voltageV as int / 1000) % 0x10000) as uint16
  }

  /** The 32-bit product never wraps: only the store into 16 bits can lose
      bits. */
  lemma SupplyProductFits(currentMa: uint16, voltageV: uint16)
    ensures 0 <= currentMa as int * voltageV as int < 0x1_0000_0000
  {
    var a, b := currentMa as int, voltageV as int;
    assert a * b <= 0xFFFF * b by {
      MulLeft(a, 0xFFFF, b);
    }
  }

  lemma MulLeft(a: int, c: int, b: int)
    requires 0 <= a <= c && 0 <= b
    ensures 0 <= a * b <= c * b
  {
  }

  /** The threshold cascade on `supply_watts`. */
  function Level(watts: uint16, t: Thresholds): (level: nat)
    ensures level <= 4
  {
    if watts >= t.d1 then 0
    else if watts >= t.d2 then 1
    else if watts >= t.d3 then 2
    else if watts >= t.d4 then 3
    else 4
  }

  /** `dgpu_get_d_notify_level(ac)`: with D-notify support (`HAVE_D_NOTIFY`)
      and AC present, the level for the charger's supply; 0 otherwise. */
  function DNotifyLevel(haveDNotify: bool, ac: bool, currentMa: uint16, voltageV: uint16, t: Thresholds): (level: nat)
    ensures level <= 4
    ensures !(haveDNotify && ac) ==> level == 0
  {
    if haveDNotify && ac then Level(SupplyWatts(currentMa, voltageV), t) else 0
  }

  /** The level is the index of the first threshold the supply meets, and 4
      when it meets none of D1 to D4 (meeting D5 or not). */
  lemma LevelIsFirstMet(watts: uint16, t: Thresholds)
    ensures var level := Level(watts, t);
      (forall k :: 0 <= k < level && k < 4 ==> watts < MinWatts(t, k)) &&
      (level < 4 ==> watts >= MinWatts(t, level))
  {
  }

  /** More power never asks for a higher (more restrictive) level. */
  lemma LevelMonotone(w1: uint16, w2: uint16, t: Thresholds)
    requires w1 <= w2
    ensures Level(w2, t) <= Level(w1, t)
  {
    LevelIsFirstMet(w1, t);
    LevelIsFirstMet(w2, t);
  }

  /** Because `supply_watts` keeps only 16 bits, it is the true wattage
      exactly when the product is below 65536 W (1000 times that in mA·V);
      a larger supply (not a real charger) wraps around to less. */
  lemma SupplyWraps(currentMa: uint16, voltageV: uint16)
    ensures var p := currentMa as int * voltageV as int;
      SupplyWatts(currentMa, voltageV) as int == p / 1000 <==> p < 65_536_000
    ensures SupplyWatts(currentMa, voltageV) as int <= currentMa as int * voltageV as int / 1000
  {
    SupplyProductFits(currentMa, voltageV);
    var p := currentMa as int * voltageV as int;
    var q := p / 1000;
    assert q < 0x10000 <==> p < 65_536_000;
    if q >= 0x10000 {
      assert q % 0x10000 < 0x10000 <= q;
    }
  }

  // ---------------------------------------------------------------------
  // Fan duty

  /** What `i2c_get(&I2C_DGPU, 0x4F, 0x00, &rlts, 1)` returns and the
      temperature byte it read. */
  datatype I2cRead = I2cRead(res: int16, rlts: int8)

  /** The GPU is powered and awake: S0, `DGPU_PWR_EN` high and `GC6_FB_EN`
      low. */
  predicate GpuAwake(power: PowerState, pwrEn: bool, gc6FbEn: bool)
  {
    power == S0 && pwrEn && !gc6FbEn
  }

  /** The temperature and the duty before the override: fan off while the GPU
      sleeps, half speed when the I2C read does not return 1 byte, else the
      curve at the temperature read. */
  function BaseDuty(awake: bool, read: I2cRead, curve: seq<FanPoint>, lookup: CurveDuty): (r: (int16, uint8))
    ensures !awake ==> r == (0, DutyOff)
    ensures awake && read.res != 1 ==> r == (0, DutyHalf)
    ensures awake && read.res == 1 ==> r.0 as int == read.rlts as int && r.1 == lookup(curve, r.0)
  {
    if !awake then (0, DutyOff)
    else if read.res != 1 then (0, DutyHalf)
    else var t := read.rlts as int as int16; (t, lookup(curve, t))
  }

  /** The dGPU fan driver's state: `dgpu_temp` and the curve. */
  class Driver {
    var temp: int16
    const fan: Curve

    /** The default dGPU curve: 40% at 70 C, 50% at 75 C, 60% at 80 C, 65%
        from 85 C (as duties, `PWM_DUTY` of those percentages). */
    constructor ()
      ensures temp == 0
      ensures fan.points[..] == [FanPoint(70, 102), FanPoint(75, 128), FanPoint(80, 153), FanPoint(85, 166), FanPoint(90, 166)]
    {
      temp := 0;
      fan := new Curve([FanPoint(70, 102), FanPoint(75, 128), FanPoint(80, 153), FanPoint(85, 166), FanPoint(90, 166)]);
    }

    /** `dgpu_get_fan_duty` on a board with a dGPU. `read` is consulted only
        when the GPU is awake; `peciOn` is the CPU driver's `peci_on`. */
    method GetFanDuty(power: PowerState, pwrEn: bool, gc6FbEn: bool, read: I2cRead, peciOn: bool, fanMax: bool,
                      lookup: CurveDuty, filters: Filters) returns (d: Duty)
      modifies this`temp
      ensures (temp, d) == var b := BaseDuty(GpuAwake(power, pwrEn, gc6FbEn), read, fan.points[..], lookup);
        (b.0, Override(b.1, peciOn, fanMax, filters))
    {
      var duty: uint8;
      if power == S0 && pwrEn && !gc6FbEn {
        if read.res == 1 {
          temp := read.rlts as int as int16;
          duty := lookup(fan.points[..], temp);
        } else {
          temp := 0;
          duty := DutyHalf;
        }
      } else {
        temp := 0;
        duty := DutyOff;
      }
      if peciOn && fanMax {
        d := Duty(DutyFull, false);
      } else {
        d := Duty(filters(duty), true);
      }
    }
  }

  /** `dgpu_get_fan_duty` on a board without a dGPU: always off, with no
      filters and no override. */
  function NoDgpuFanDuty(): (d: Duty)
    ensures d.duty as int == PwmDuty(0) && !d.filtered
  {
    Duty(DutyOff, false)
  }

  /** The forced maximum reaches the dGPU fan only on boards that have one,
      and only while PECI is up; a sleeping GPU's fan is asked to stop. */
  lemma FanMaxOverrides(awake: bool, read: I2cRead, curve: seq<FanPoint>, lookup: CurveDuty, peciOn: bool, fanMax: bool, filters: Filters)
    ensures var b := BaseDuty(awake, read, curve, lookup);
      var d := Override(b.1, peciOn, fanMax, filters);
      (peciOn && fanMax ==> d == Duty(DutyFull, false)) &&
      (!(peciOn && fanMax) && !awake ==> d == Duty(filters(DutyOff), true) && b.0 == 0)
  {
  }

  /** The default curves' duties are `PWM_DUTY` of their percentages. */
  lemma DefaultCurveDuties()
    ensures PwmDuty(40) == 102 && PwmDuty(50) == 128 && PwmDuty(60) == 153 && PwmDuty(65) == 166
    ensures PwmDuty(25) == 64 && PwmDuty(30) == 77 && PwmDuty(35) == 90 && PwmDuty(100) == 255
  {
  }
}
