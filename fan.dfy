/** Fan curves and the duty selection shared by the CPU (PECI) and dGPU fan
    drivers (board/system76/common/peci.c and dgpu.c).

    Each driver owns a curve `FAN.points`, a fixed-size array of points that
    a host command may overwrite as a whole. Evaluating the curve
    (`fan_duty`) and the heatup and cooldown filters live in fan.c, which is
    not part of this model: they are parameters here. */
module Fan {
  import opened Platform

  /** `struct FanPoint`: a temperature in degrees C and an 8-bit PWM duty. */
  datatype FanPoint = FanPoint(temp: int16, duty: uint8)

  /** `PWM_DUTY(x)` of ec/pwm.h: a percentage as an 8-bit duty, rounded up. */
  function PwmDuty(percent: nat): (d: nat)
    requires percent <= 100
    ensures d <= 255 && percent * 255 <= d * 100 < percent * 255 + 100
  {
    (percent * 255 + 99) / 100
  }

  /** The duties the drivers use: `PWM_DUTY(0)`, `PWM_DUTY(50)` and
      `PWM_DUTY(100)`. */
  const DutyOff: uint8 := 0
  const DutyHalf: uint8 := 128
  const DutyFull: uint8 := 255

  lemma DutyConstants()
    ensures DutyOff as int == PwmDuty(0) && DutyHalf as int == PwmDuty(50) && DutyFull as int == PwmDuty(100)
  {
  }

  /** The outcome of a curve setter: the status it returns (0, or -1 for a
      point count that does not match the curve) and the curve after it. */
  function SetCurve(curve: seq<FanPoint>, count: uint8, points: seq<FanPoint>): (r: (int16, seq<FanPoint>))
    requires count as int == |curve| ==> count as int <= |points|
  {
    if count as int != |curve| then (-1, curve) else (0, points[..count])
  }

  /** A setter rejects exactly the calls whose count differs from the size of
      the curve, and then the curve is untouched; otherwise every point is
      copied in order and the curve keeps its size. */
  lemma SetCurveContract(curve: seq<FanPoint>, count: uint8, points: seq<FanPoint>)
    requires count as int == |curve| ==> count as int <= |points|
    ensures var (status, after) := SetCurve(curve, count, points);
      (status == -1 <==> count as int != |curve|) && (status == 0 || status == -1) &&
      |after| == |curve| &&
      (status == -1 ==> after == curve) &&
      (status == 0 ==> forall i :: 0 <= i < |after| ==> after[i] == points[i])
  {
  }

  /** Setting the same points twice leaves the curve as setting them once. */
  lemma SetCurveIdempotent(curve: seq<FanPoint>, count: uint8, points: seq<FanPoint>)
    requires count as int == |curve| ==> count as int <= |points|
    ensures SetCurve(SetCurve(curve, count, points).1, count, points) == SetCurve(curve, count, points)
  {
  }

  /** The curve of one fan, `FAN.points`, overwritten in place. */
  class Curve {
    const points: array<FanPoint>

    constructor (init: seq<FanPoint>)
      ensures points[..] == init && fresh(points)
    {
      points := new FanPoint[|init|](i requires 0 <= i < |init| => init[i]);
    }

    /** `peci_set_fan_curve` / `dgpu_set_fan_curve`: refuse a point count
        other than the curve's size, else copy each temperature and duty. */
    method SetPoints(count: uint8, src: seq<FanPoint>) returns (status: int16)
      requires count as int == points.Length ==> count as int <= |src|
      modifies points
      ensures (status, points[..]) == SetCurve(old(points[..]), count, src)
    {
      if count as int != points.Length {
        return -1;
      }
      var i := 0;
      while i < count as int
        invariant i <= count as int == points.Length
        invariant forall k :: 0 <= k < i ==> points[k] == src[k]
        invariant forall k :: i <= k < points.Length ==> points[k] == old(points[k])
      {
        points[i] := points[i].(temp := src[i].temp);
        points[i] := points[i].(duty := src[i].duty);
        i := i + 1;
      }
      assert points[..] == src[..count];
      return 0;
    }
  }

  /** What the curve lookup `fan_duty(&FAN, temp)` answers. */
  type CurveDuty = (seq<FanPoint>, int16) -> uint8

  /** The heatup and cooldown filters, `fan_cooldown(&FAN, fan_heatup(&FAN,
      duty))`, as they answer on this call. */
  type Filters = uint8 -> uint8

  /** The duty a driver reports, and whether it went through the filters
      (which then take it into their history). */
  datatype Duty = Duty(duty: uint8, filtered: bool)

  /** The common tail of both drivers: full speed when PECI is up and the
      fans are forced to maximum (`fan_max`), the filtered duty otherwise. */
  function Override(duty: uint8, peciOn: bool, fanMax: bool, filters: Filters): (r: Duty)
    ensures r.filtered <==> !(peciOn && fanMax)
    ensures r.duty == if peciOn && fanMax then DutyFull else filters(duty)
  {
    if peciOn && fanMax then Duty(DutyFull, false) else Duty(filters(duty), true)
  }
}
