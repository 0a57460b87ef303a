/**
 * The "time ago" bucketing that the header notifications and the activity
 * feed both use: the elapsed time in milliseconds is floored to minutes;
 * under an hour the minutes are shown, under a day the floored hours, and
 * otherwise the floored days. Dafny's `/` with a positive divisor rounds
 * toward minus infinity, as `Math.floor(x / d)` does.
 */
module TimeAgo {

  const MsPerMinute: int := 60_000
  const MsPerHour: int := 60 * MsPerMinute
  const MsPerDay: int := 24 * MsPerHour

  datatype Unit = Minutes | Hours | Days

  datatype Age = Age(count: int, unit: Unit)

  /** Bucketing of an elapsed time, in the order the source tests it. The
      result is the whole number of units elapsed, and the unit is the
      largest one (up to days) for which at least one hour (for hours) or one
      day (for days) has passed. */
  function Bucket(elapsedMs: int): (a: Age)
    ensures a.unit == Minutes <==> elapsedMs < MsPerHour
    ensures a.unit == Hours <==> MsPerHour <= elapsedMs < MsPerDay
    ensures a.unit == Days <==> MsPerDay <= elapsedMs
    ensures a.unit == Minutes ==> a.count * MsPerMinute <= elapsedMs < (a.count + 1) * MsPerMinute
    ensures a.unit == Hours ==> a.count * MsPerHour <= elapsedMs < (a.count + 1) * MsPerHour
    ensures a.unit == Days ==> a.count * MsPerDay <= elapsedMs < (a.count + 1) * MsPerDay
    ensures a.unit != Minutes ==> a.count >= 1
  {
    var minutes := elapsedMs / MsPerMinute;
    FloorBounds(elapsedMs, MsPerMinute);
    if minutes < 60 then
      Age(minutes, Minutes)
    else
      var hours := minutes / 60;
      MinutesThenHours(elapsedMs);
      FloorBounds(elapsedMs, MsPerHour);
      if hours < 24 then
        Age(hours, Hours)
      else
        HoursThenDays(elapsedMs);
        FloorBounds(elapsedMs, MsPerDay);
        Age(hours / 24, Days)
  }

  lemma FloorBounds(x: int, d: int)
    requires d > 0
    ensures (x / d) * d <= x < (x / d + 1) * d
  {
  }

  /** Flooring minutes to hours is flooring milliseconds to hours. */
  lemma MinutesThenHours(x: int)
    ensures (x / MsPerMinute) / 60 == x / MsPerHour
  {
    var m := x / MsPerMinute;
    var h := m / 60;
    assert m * MsPerMinute <= x < m * MsPerMinute + MsPerMinute;
    assert h * 60 <= m < h * 60 + 60;
    assert h * MsPerHour <= x < h * MsPerHour + MsPerHour;
  }

  /** Flooring hours to days is flooring milliseconds to days. */
  lemma HoursThenDays(x: int)
    ensures (x / MsPerHour) / 24 == x / MsPerDay
  {
    var h := x / MsPerHour;
    var d := h / 24;
    assert h * MsPerHour <= x < h * MsPerHour + MsPerHour;
    assert d * 24 <= h < d * 24 + 24;
    assert d * MsPerDay <= x < d * MsPerDay + MsPerDay;
  }
}
