/** `format_timestamp` (ui.rs): Unix seconds to a Gregorian date and time of day
    by counting off years and months. */
module Calendar {
  import opened Division

  /** Rust's `/` and `%` truncate towards zero. */
  function Quot(a: int, b: nat): int
    requires b > 0
  {
    if a >= 0 then a / b else -(-a / b)
  }

  function Rem(a: int, b: nat): int
    requires b > 0
  {
    a - Quot(a, b) * b
  }

  predicate IsLeap(y: int) {
    (y % 4 == 0 && y % 100 != 0) || y % 400 == 0
  }

  function DaysInYear(y: int): nat {
    if IsLeap(y) then 366 else 365
  }

  function MonthDays(y: int): seq<nat> {
    [31, if IsLeap(y) then 29 else 28, 31, 30, 31, 30, 31, 31, 30, 31, 30, 31]
  }

  /** The fields printed; a zero timestamp prints a dash. */
  datatype Stamp = Dash | Stamp(year: int, month: int, day: int, hours: int, minutes: int, seconds: int)

  // ---- the Gregorian calendar, in closed form ----

  /** Leap years among the years 1 to `n`. */
  function Leaps(n: nat): int {
    n / 4 - n / 100 + n / 400
  }

  /** Days from 1970-01-01 to the first day of year `y`. */
  function DaysBeforeYear(y: int): int
    requires y >= 1970
  {
    365 * (y - 1970) + Leaps(y - 1) - Leaps(1969)
  }

  /** Days before month `m` (1 to 12). */
  function DaysBeforeMonth(y: int, m: int): int
    requires 1 <= m <= 12
  {
    [0, 31, 59, 90, 120, 151, 181, 212, 243, 273, 304, 334][m - 1] + (if m > 2 && IsLeap(y) then 1 else 0)
  }

  predicate ValidDateTime(s: Stamp) {
    && s.Stamp? && s.year >= 1970 && 1 <= s.month <= 12
    && 1 <= s.day <= MonthDays(s.year)[s.month - 1]
    && 0 <= s.hours < 24 && 0 <= s.minutes < 60 && 0 <= s.seconds < 60
  }

  function EpochSeconds(s: Stamp): int
    requires ValidDateTime(s)
  {
    (DaysBeforeYear(s.year) + DaysBeforeMonth(s.year, s.month) + s.day - 1) * 86400
    + s.hours * 3600 + s.minutes * 60 + s.seconds
  }

  /** A year adds its own length to the closed form. */
  lemma YearStep(y: int)
    requires y >= 1970
    ensures DaysBeforeYear(y + 1) == DaysBeforeYear(y) + DaysInYear(y)
  {
    hide IsLeap;
    LeapStep(y);
    assert DaysInYear(y) == 365 + (if IsLeap(y) then 1 else 0);
  }

  /** The year adds a leap day to the count exactly if it is a leap year. */
  lemma LeapStep(y: int)
    requires y >= 1
    ensures Leaps(y) == Leaps(y - 1) + (if IsLeap(y) then 1 else 0)
  {
    QuotStep(y, 4);
    QuotStep(y, 100);
    QuotStep(y, 400);
    Multiple(y);
  }

  lemma Multiple(y: nat)
    ensures y % 400 == 0 ==> y % 100 == 0
    ensures y % 100 == 0 ==> y % 4 == 0
  {
    if y % 400 == 0 { DivUnique(y, 100, 4 * (y / 400), 0); }
    if y % 100 == 0 { DivUnique(y, 4, 25 * (y / 100), 0); }
  }

  lemma QuotStep(y: nat, d: nat)
    requires y > 0 && d > 0
    ensures y / d == (y - 1) / d + (if y % d == 0 then 1 else 0)
  {
    var q, r := (y - 1) / d, (y - 1) % d;
    assert y == q * d + (r + 1);
    if r + 1 == d {
      assert y == (q + 1) * d + 0;
      DivUnique(y, d, q + 1, 0);
    } else {
      DivUnique(y, d, q, r + 1);
    }
  }

  /** Hours, minutes and seconds of a count of seconds. */
  lemma Fields(p: nat)
    ensures p % 3600 / 60 * 60 + p % 60 == p % 3600 && p % 3600 == p - 3600 * (p / 3600)
    ensures p % 3600 / 60 < 60 && p % 60 < 60
  {
    var q, r := p / 3600, p % 3600;
    assert p == 3600 * q + r && 0 <= r < 3600;
    var m, s := r / 60, r % 60;
    assert r == 60 * m + s && 0 <= m < 60 && 0 <= s < 60;
    assert p == (60 * q + m) * 60 + s;
    DivUnique(p, 60, 60 * q + m, s);
  }

  /** The three clock fields make up the time of day, with its sign. */
  lemma ClockFields(t: int)
    ensures var h, m, s := Quot(t, 3600), Quot(Rem(t, 3600), 60), Rem(t, 60);
            && t == h * 3600 + m * 60 + s
            && (0 <= t < 86400 ==> 0 <= h < 24 && 0 <= m < 60 && 0 <= s < 60)
            && (t < 0 ==> h < 0 || m < 0 || s < 0)
  {
    var p := if t >= 0 then t else -t;
    Fields(p);
    RemOf(t, 3600);
    RemOf(t, 60);
    QuotOf(Rem(t, 3600), 60);
    QuotOf(t, 3600);
    assert p < 86400 ==> p / 3600 < 24;
  }

  /** Minutes and seconds of the day are those of the whole count. */
  lemma NegativeFields(p: nat)
    ensures p % 86400 % 3600 == p % 3600 && p % 86400 % 60 == p % 60
  {
    var q, r := p / 86400, p % 86400;
    var h, m := r / 3600, r / 60;
    assert p == (24 * q + h) * 3600 + r % 3600;
    DivUnique(p, 3600, 24 * q + h, r % 3600);
    assert p == (1440 * q + m) * 60 + r % 60;
    DivUnique(p, 60, 1440 * q + m, r % 60);
  }

  lemma RemOf(t: int, b: nat)
    requires b > 0
    ensures Rem(t, b) == if t >= 0 then t % b else -(-t % b)
  {
    if t >= 0 { assert t % b == t - t / b * b; } else { assert -t % b == -t - -t / b * b; }
  }

  lemma QuotOf(t: int, b: nat)
    requires b > 0
    ensures Quot(t, b) == if t > 0 then t / b else -(-t / b)
  {
    if t == 0 { DivUnique(0, b, 0, 0); }
  }

  /** All the fields of a timestamp but the date, of either sign. */
  lemma TimeFields(ts: int)
    ensures var days, t := Quot(ts, 86400), Rem(ts, 86400);
      var h, m, s := Quot(t, 3600), Quot(Rem(t, 3600), 60), Rem(t, 60);
      && (ts > 0 ==> days >= 0 && days * 86400 + h * 3600 + m * 60 + s == ts
                     && 0 <= h < 24 && 0 <= m < 60 && 0 <= s < 60)
      && (ts < 0 ==> days == -(-ts / 86400) && h == -(-ts % 86400 / 3600)
                     && m == -(-ts % 3600 / 60) && s == -(-ts % 60)
                     && (days < 0 || h < 0 || m < 0 || s < 0))
  {
    var t := Rem(ts, 86400);
    ClockFields(t);
    RemOf(ts, 86400);
    if ts < 0 {
      NegativeFields(-ts);
      RemOf(t, 3600);
      RemOf(t, 60);
      QuotOf(t, 3600);
      QuotOf(Rem(t, 3600), 60);
      QuotOf(ts, 86400);
    }
  }

  /** For every non-zero timestamp, the fields form a valid date and time if and
      only if the timestamp is positive, and then they denote exactly it. */
  method FormatTimestamp(ts: int) returns (s: Stamp)
    ensures ts == 0 <==> s == Dash
    ensures ts != 0 ==> (ValidDateTime(s) <==> ts > 0)
    ensures ts > 0 ==> EpochSeconds(s) == ts
    ensures ts < 0 ==>
      && s.year == 1970 && s.month == 1 && s.day == 1 - -ts / 86400
      && s.hours == -(-ts % 86400 / 3600) && s.minutes == -(-ts % 3600 / 60) && s.seconds == -(-ts % 60)
  {
    hide Quot, Rem, DaysBeforeYear, DaysBeforeMonth, IsLeap;
    if ts == 0 { return Dash; }
    var days, timeOfDay := Quot(ts, 86400), Rem(ts, 86400);
    var hours, minutes, seconds := Quot(timeOfDay, 3600), Quot(Rem(timeOfDay, 3600), 60), Rem(timeOfDay, 60);
    TimeFields(ts);
    var y, remainingDays := YearOf(days);
    var m;
    m, remainingDays := MonthOf(y, remainingDays);
    s := Stamp(y, m + 1, remainingDays + 1, hours, minutes, seconds);
  }

  /** The year loop. */
  method YearOf(days: int) returns (y: int, remainingDays: int)
    ensures days < 365 ==> y == 1970 && remainingDays == days
    ensures days >= 0 ==> y >= 1970 && 0 <= remainingDays < DaysInYear(y) && DaysBeforeYear(y) + remainingDays == days
  {
    y, remainingDays := 1970, days;
    while remainingDays >= DaysInYear(y)
      invariant y >= 1970 && DaysBeforeYear(y) + remainingDays == days
      invariant if days < 365 then y == 1970 && remainingDays == days else remainingDays >= 0
      decreases remainingDays
    {
      YearStep(y);
      remainingDays := remainingDays - DaysInYear(y);
      y := y + 1;
    }
  }

  /** The month loop: it always stops inside the year. */
  method MonthOf(y: int, dayOfYear: int) returns (m: nat, remainingDays: int)
    requires dayOfYear < DaysInYear(y)
    ensures m < 12
    ensures dayOfYear < 31 ==> m == 0 && remainingDays == dayOfYear
    ensures dayOfYear >= 0 ==> 0 <= remainingDays < MonthDays(y)[m]
                               && DaysBeforeMonth(y, m + 1) + remainingDays == dayOfYear
  {
    var monthDays := MonthDays(y);
    m, remainingDays := 0, dayOfYear;
    for i := 0 to 12
      invariant i < 12 ==> remainingDays == dayOfYear - DaysBeforeMonth(y, i + 1)
      invariant i == 12 ==> remainingDays == dayOfYear - DaysInYear(y)
      invariant i > 0 ==> remainingDays >= 0
    {
      if remainingDays < monthDays[i] {
        m := i;
        return;
      }
      remainingDays := remainingDays - monthDays[i];
    }
  }
}
