/** The "together for" counter of the page header (src/components/ui/Header.tsx). */
module HeaderClock {
  import opened JsMath

  const MsPerSecond: int := 1000
  const MsPerMinute: int := 60000
  const MsPerHour: int := 3600000
  const MsPerDay: int := 86400000

  /** 2024-12-14T00:00:00 UTC, in milliseconds since the epoch. */
  const StartUtcMs: int := 1734134400000

  /** `new Date('2024-12-14T00:00:00').getTime()`: the string has no zone, so it is local
      midnight; `offsetMinutes` is the zone's `getTimezoneOffset()` on that date. */
  function StartMs(offsetMinutes: int): int {
    StartUtcMs + offsetMinutes * 60000
  }

  datatype Elapsed = Elapsed(days: int, hours: int, minutes: int, seconds: int)

  /** Lines 21-24 for `difference` milliseconds: `Math.floor` of a quotient by a positive
      constant (Dafny's `/` there is the same floor) of JavaScript's truncating `%`. */
  function Decompose(difference: int): (e: Elapsed)
    ensures e.days >= 0 <==> difference >= 0
    ensures -24 <= e.hours < 24 && -60 <= e.minutes < 60 && -60 <= e.seconds < 60
  {
    Elapsed(
      difference / 86400000,
      JsRem(difference, 86400000) / 3600000,
      JsRem(difference, 3600000) / 60000,
      JsRem(difference, 60000) / 1000)
  }

  /** The counter's value at instant `nowMs`, for a zone with offset `offsetMinutes`. */
  function ElapsedAt(nowMs: int, offsetMinutes: int): Elapsed {
    Decompose(nowMs - StartMs(offsetMinutes))
  }

  lemma DivModHour(r: int, q: int, rest: int)
    requires r == q * 3600000 + rest && 0 <= rest < 3600000
    ensures r / 3600000 == q && r % 3600000 == rest
  {
  }

  lemma DivModMinute(r: int, q: int, rest: int)
    requires r == q * 60000 + rest && 0 <= rest < 60000
    ensures r / 60000 == q && r % 60000 == rest
  {
  }

  lemma DivModSecond(r: int, q: int, rest: int)
    requires r == q * 1000 + rest && 0 <= rest < 1000
    ensures r / 1000 == q && r % 1000 == rest
  {
  }

  /** For a non-negative difference the fields are a mixed-radix decomposition: hours, minutes
      and seconds within their ranges, and the parts add up to the difference truncated to the
      second. */
  lemma DecomposeNonNegative(difference: int)
    requires difference >= 0
    ensures var e := Decompose(difference);
      && e.days == difference / MsPerDay
      && 0 <= e.hours < 24 && 0 <= e.minutes < 60 && 0 <= e.seconds < 60
      && e.days * MsPerDay + e.hours * MsPerHour + e.minutes * MsPerMinute + e.seconds * MsPerSecond <= difference
      && difference < e.days * MsPerDay + e.hours * MsPerHour + e.minutes * MsPerMinute + e.seconds * MsPerSecond + MsPerSecond
  {
    var e := Decompose(difference);
    var d := difference / 86400000;
    var dayRest := difference % 86400000;
    var h := dayRest / 3600000;
    var hourRest := dayRest % 3600000;
    var m := hourRest / 60000;
    var minuteRest := hourRest % 60000;
    var s := minuteRest / 1000;
    assert 0 <= h < 24;
    DivModHour(difference, d * 24 + h, hourRest);
    assert e.hours == h;
    DivModMinute(difference, (d * 24 + h) * 60 + m, minuteRest);
    assert e.minutes == m;
    DivModSecond(difference, ((d * 24 + h) * 60 + m) * 60 + s, minuteRest % 1000);
    assert e.seconds == s;
  }

  /** Before the start instant the days count down from -1 and the other fields are
      non-positive, as JavaScript's `%` keeps the sign of its left operand. */
  lemma DecomposeNegative(difference: int)
    requires difference < 0
    ensures var e := Decompose(difference);
      e.days < 0 && -24 <= e.hours <= 0 && -60 <= e.minutes <= 0 && -60 <= e.seconds <= 0
  {
  }

  /** At the start instant itself, in any zone, the counter reads zero everywhere. */
  lemma ZeroAtStart(offsetMinutes: int)
    ensures ElapsedAt(StartMs(offsetMinutes), offsetMinutes) == Elapsed(0, 0, 0, 0)
  {
  }
}
