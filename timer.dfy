/** utils/timer.ts: splitting a number of seconds into days, hours, minutes
    and seconds, 12-hour formatting, distances to and from a timestamp, and
    timestamp validation. The clock reading `new Date().getTime()` is the
    parameter `now` (milliseconds). */
module TimerUtils {
  import GameStateHelpers

  const SecondsPerMinute: int := 60
  const SecondsPerHour: int := 60 * 60
  const SecondsPerDay: int := 60 * 60 * 24

  /** `Math.ceil`. */
  function Ceil(x: real): (r: int)
    ensures r as real - 1.0 < x <= r as real
  {
    -((-x).Floor)
  }

  /** JavaScript's `%` on integers: the remainder of division truncated
      towards zero, so it takes the sign of the dividend. */
  function JsRem(a: int, b: int): (r: int)
    requires b > 0
    ensures -b < r < b
    ensures a >= 0 ==> r == a % b
    ensures a < 0 ==> r <= 0 && r == -((-a) % b)
  {
    if a >= 0 then a % b else -((-a) % b)
  }

  datatype TimeParts = TimeParts(seconds: int, minutes: int, hours: int, days: int)

  /** `Math.floor(x / y)` for an integer `x` and a positive integer `y` is
      Dafny's division, which rounds towards negative infinity when the
      divisor is positive. */
  function FloorDiv(x: int, y: int): (q: int)
    requires y > 0
    ensures q * y <= x < (q + 1) * y
  {
    x / y
  }

  /** `getTimeFromSeconds`: for a non-negative (rounded up) total, the parts
      are in range and recompose the total. */
  function GetTimeFromSeconds(secs: real): (r: TimeParts)
    ensures var total := Ceil(secs);
      total >= 0 ==>
        && r.days * SecondsPerDay + r.hours * SecondsPerHour + r.minutes * SecondsPerMinute + r.seconds == total
        && 0 <= r.seconds < 60 && 0 <= r.minutes < 60 && 0 <= r.hours < 24 && 0 <= r.days
  {
    var total := Ceil(secs);
    var parts := TimeParts(
      JsRem(total, SecondsPerMinute),
      FloorDiv(JsRem(total, SecondsPerHour), SecondsPerMinute),
      FloorDiv(JsRem(total, SecondsPerDay), SecondsPerHour),
      FloorDiv(total, SecondsPerDay));
    if total >= 0 then Recompose(total); parts else parts
  }

  /** A non-negative number of seconds splits into whole days, hours below 24,
      minutes below 60 and seconds below 60. */
  lemma Recompose(total: nat)
    ensures (total / SecondsPerDay) * SecondsPerDay + ((total % SecondsPerDay) / SecondsPerHour) * SecondsPerHour
          + ((total % SecondsPerHour) / SecondsPerMinute) * SecondsPerMinute + total % SecondsPerMinute == total
    ensures (total % SecondsPerDay) / SecondsPerHour < 24
  {
    var d, rd := total / 86400, total % 86400;
    var h, rh := rd / 3600, rd % 3600;
    var m, s := rh / 60, rh % 60;
    assert rd < 86400 && rh < 3600 && s < 60;
    assert h < 24;
    assert total == (d * 24 + h) * 3600 + rh;
    DivModUnique(total, d * 24 + h, rh, 3600);
    assert total == ((d * 24 + h) * 60 + m) * 60 + s;
    DivModUnique(total, (d * 24 + h) * 60 + m, s, 60);
  }

  /** Quotient and remainder by 60 or 3600 are determined by any
      decomposition with the remainder in range. */
  lemma DivModUnique(x: int, q: int, r: int, m: int)
    requires m == 60 || m == 3600
    requires 0 <= r < m && x == q * m + r
    ensures x / m == q && x % m == r
  {
    if m == 60 {
      assert x == q * 60 + r;
      assert x == (x / 60) * 60 + x % 60;
    } else {
      assert x == q * 3600 + r;
      assert x == (x / 3600) * 3600 + x % 3600;
    }
  }

  datatype FormattedTime = FormattedTime(seconds: int, minutes: int, hours: int, ampm: string)

  /** `getFormattedTimeFromSeconds`: in "12-hour" format the hours are taken
      modulo 12 and marked "pm" from hour 12 on, "am" before; any other
      format leaves the hours alone with no marker. */
  function GetFormattedTimeFromSeconds(totalSeconds: real, format: string): (r: FormattedTime)
    ensures var parts := GetTimeFromSeconds(totalSeconds);
      && r.seconds == parts.seconds && r.minutes == parts.minutes
      && (format == "12-hour" ==>
            && (r.ampm == "pm" <==> parts.hours >= 12)
            && (r.ampm == "am" <==> parts.hours < 12)
            && -12 < r.hours < 12
            && (parts.hours >= 0 ==> r.hours == parts.hours % 12))
      && (format != "12-hour" ==> r.ampm == "" && r.hours == parts.hours)
  {
    var parts := GetTimeFromSeconds(totalSeconds);
    if format == "12-hour" then
      FormattedTime(parts.seconds, parts.minutes, JsRem(parts.hours, 12), if parts.hours >= 12 then "pm" else "am")
    else
      FormattedTime(parts.seconds, parts.minutes, parts.hours, "")
  }

  /** In "12-hour" format a non-negative time of day reads as 0 to 11 o'clock. */
  lemma TwelveHourClock(totalSeconds: real)
    requires Ceil(totalSeconds) >= 0
    ensures var r := GetFormattedTimeFromSeconds(totalSeconds, "12-hour");
      && 0 <= r.hours < 12
      && r.ampm in {"am", "pm"}
      && GetTimeFromSeconds(totalSeconds).hours == r.hours + (if r.ampm == "pm" then 12 else 0)
  {
  }

  /** Seconds for a positive distance in milliseconds, rounded on request. */
  function SecondsFromDistance(milliseconds: int, shouldRound: bool): (r: real)
    requires milliseconds > 0
    ensures !shouldRound ==> r * 1000.0 == milliseconds as real
    ensures shouldRound ==> r == GameStateHelpers.RoundHalfUp(milliseconds as real / 1000.0) as real
    ensures shouldRound ==> r >= 0.0 && -500.0 < r * 1000.0 - milliseconds as real <= 500.0
  {
    var val := milliseconds as real / 1000.0;
    if shouldRound then GameStateHelpers.RoundHalfUp(val) as real else val
  }

  /** `getSecondsFromExpiry`: the seconds still to go until `expiry`, or 0
      once it has passed. */
  function GetSecondsFromExpiry(expiry: int, shouldRound: bool, now: int): (r: real)
    ensures expiry <= now ==> r == 0.0
    ensures expiry > now && !shouldRound ==> r > 0.0 && r * 1000.0 == (expiry - now) as real
    ensures expiry > now && shouldRound ==>
      && r >= 0.0 && r.Floor as real == r
      && -500.0 < r * 1000.0 - (expiry - now) as real <= 500.0
  {
    var distance := expiry - now;
    if distance > 0 then SecondsFromDistance(distance, shouldRound) else 0.0
  }

  /** `getSecondsFromPrevTime`: the seconds elapsed since `prevTime`, or 0 if
      it is not in the past. */
  function GetSecondsFromPrevTime(prevTime: int, shouldRound: bool, now: int): (r: real)
    ensures now <= prevTime ==> r == 0.0
    ensures now > prevTime && !shouldRound ==> r > 0.0 && r * 1000.0 == (now - prevTime) as real
    ensures now > prevTime && shouldRound ==>
      && r >= 0.0 && r.Floor as real == r
      && -500.0 < r * 1000.0 - (now - prevTime) as real <= 500.0
  {
    var distance := now - prevTime;
    if distance > 0 then SecondsFromDistance(distance, shouldRound) else 0.0
  }

  /** The largest magnitude a JavaScript `Date` holds, in milliseconds. */
  const MaxTimeValue: real := 8640000000000000.0

  /** `Math.trunc`. */
  function Trunc(x: real): (r: int)
    ensures x >= 0.0 ==> r as real <= x < r as real + 1.0
    ensures x < 0.0 ==> r as real - 1.0 < x <= r as real
  {
    if x >= 0.0 then x.Floor else -((-x).Floor)
  }

  /** The time value `new Date(t).getTime()` yields: `t` truncated, or NaN
      when it lies outside the range of dates. */
  datatype TimeValue = Millis(value: int) | NaN

  function TimeClip(t: real): (r: TimeValue)
    ensures r.NaN? <==> t < -MaxTimeValue || MaxTimeValue < t
    ensures r.Millis? ==> -MaxTimeValue <= r.value as real <= MaxTimeValue
    ensures r.Millis? && t >= 0.0 ==> r.value as real <= t < r.value as real + 1.0
    ensures r.Millis? && t < 0.0 ==> r.value as real - 1.0 < t <= r.value as real
  {
    if t > MaxTimeValue || t < -MaxTimeValue then NaN else Millis(Trunc(t))
  }

  /** `validateExpiryTimestamp`: the timestamp denotes a date after the epoch,
      which for a number means one from 1 ms up to the largest date. The
      warning it logs otherwise is left out. */
  function ValidateExpiryTimestamp(expiryTimestamp: real): (r: bool)
    ensures r <==> 1.0 <= expiryTimestamp <= MaxTimeValue
  {
    var t := TimeClip(expiryTimestamp);
    t.Millis? && t.value > 0
  }
}
