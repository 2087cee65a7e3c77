/** UTC instants as the trace store writes them: `isoformat(timespec="microseconds")` on the
    proleptic Gregorian calendar, and subtraction of whole days. The text of fixed width
    orders exactly as time does. */
module IsoTime {
  import opened Schema
  import opened Ranking

  datatype DateTime = DateTime(year: int, month: int, day: int, hour: int, minute: int, second: int, micro: int)

  predicate LeapYear(y: int) { y % 4 == 0 && (y % 100 != 0 || y % 400 == 0) }

  function DaysInMonth(y: int, m: int): int {
    if m == 2 then (if LeapYear(y) then 29 else 28)
    else if m == 4 || m == 6 || m == 9 || m == 11 then 30
    else 31
  }

  function DaysInYear(y: int): int { if LeapYear(y) then 366 else 365 }

  function DaysBeforeMonth(y: int, m: int): int
    requires 1 <= m <= 13
    decreases m
  {
    if m == 1 then 0 else DaysBeforeMonth(y, m - 1) + DaysInMonth(y, m - 1)
  }

  function DaysBeforeYear(y: int): int
    requires y >= 1
    decreases y
  {
    if y == 1 then 0 else DaysBeforeYear(y - 1) + DaysInYear(y - 1)
  }

  predicate Valid(t: DateTime) {
    && 1 <= t.year <= 9999 && 1 <= t.month <= 12 && 1 <= t.day <= DaysInMonth(t.year, t.month)
    && 0 <= t.hour < 24 && 0 <= t.minute < 60 && 0 <= t.second < 60 && 0 <= t.micro < 1_000_000
  }

  const DAY_MICROS: int := 86_400_000_000

  function Day(t: DateTime): int
    requires Valid(t)
  {
    DaysBeforeYear(t.year) + DaysBeforeMonth(t.year, t.month) + t.day - 1
  }

  function TimeOfDay(t: DateTime): int {
    ((t.hour * 60 + t.minute) * 60 + t.second) * 1_000_000 + t.micro
  }

  /** Microseconds since 0001-01-01T00:00:00. */
  function Micros(t: DateTime): int
    requires Valid(t)
  {
    Day(t) * DAY_MICROS + TimeOfDay(t)
  }

  // ----- The calendar counts days strictly upwards

  lemma {:induction false} MonthsIncrease(y: int, m: int, n: int)
    requires 1 <= m <= n <= 13
    ensures DaysBeforeMonth(y, m) <= DaysBeforeMonth(y, n)
    ensures m < n ==> DaysBeforeMonth(y, m) + DaysInMonth(y, m) <= DaysBeforeMonth(y, n)
    decreases n
  {
    if m < n {
      MonthsIncrease(y, m, n - 1);
    }
  }

  lemma MonthsFillYear(y: int)
    ensures DaysBeforeMonth(y, 13) == DaysInYear(y)
  {
    assert DaysBeforeMonth(y, 3) == 31 + DaysInMonth(y, 2);
    assert DaysBeforeMonth(y, 5) == DaysBeforeMonth(y, 3) + 61;
    assert DaysBeforeMonth(y, 7) == DaysBeforeMonth(y, 5) + 61;
    assert DaysBeforeMonth(y, 9) == DaysBeforeMonth(y, 7) + 62;
    assert DaysBeforeMonth(y, 11) == DaysBeforeMonth(y, 9) + 61;
    assert DaysBeforeMonth(y, 13) == DaysBeforeMonth(y, 11) + 61;
  }

  lemma {:induction false} YearsIncrease(y: int, z: int)
    requires 1 <= y <= z
    ensures DaysBeforeYear(y) <= DaysBeforeYear(z)
    ensures y < z ==> DaysBeforeYear(y) + DaysInYear(y) <= DaysBeforeYear(z)
    decreases z
  {
    if y < z {
      YearsIncrease(y, z - 1);
    }
  }

  lemma DayWithinYear(t: DateTime)
    requires Valid(t)
    ensures DaysBeforeYear(t.year) <= Day(t) < DaysBeforeYear(t.year) + DaysInYear(t.year)
  {
    MonthsIncrease(t.year, 1, t.month);
    MonthsIncrease(t.year, t.month, 13);
    MonthsFillYear(t.year);
  }

  predicate DateBefore(a: DateTime, b: DateTime) {
    a.year < b.year || (a.year == b.year && (a.month < b.month || (a.month == b.month && a.day < b.day)))
  }

  lemma DateBeforeCounts(a: DateTime, b: DateTime)
    requires Valid(a) && Valid(b) && DateBefore(a, b)
    ensures Day(a) < Day(b)
  {
    DayWithinYear(a);
    DayWithinYear(b);
    if a.year < b.year {
      YearsIncrease(a.year, b.year);
    } else if a.month < b.month {
      MonthsIncrease(a.year, a.month, b.month);
    }
  }

  predicate TimeBefore(a: DateTime, b: DateTime) {
    a.hour < b.hour || (a.hour == b.hour && (a.minute < b.minute || (a.minute == b.minute &&
    (a.second < b.second || (a.second == b.second && a.micro < b.micro)))))
  }

  lemma TimeBeforeCounts(a: DateTime, b: DateTime)
    requires Valid(a) && Valid(b)
    ensures TimeBefore(a, b) <==> TimeOfDay(a) < TimeOfDay(b)
    ensures 0 <= TimeOfDay(a) < DAY_MICROS
  {
  }

  predicate Before(a: DateTime, b: DateTime) {
    DateBefore(a, b) || (!DateBefore(b, a) && TimeBefore(a, b))
  }

  /** Comparing the fields in order compares the instants. */
  lemma BeforeCounts(a: DateTime, b: DateTime)
    requires Valid(a) && Valid(b)
    ensures Before(a, b) <==> Micros(a) < Micros(b)
  {
    TimeBeforeCounts(a, b);
    TimeBeforeCounts(b, a);
    if DateBefore(a, b) {
      DateBeforeCounts(a, b);
    } else if DateBefore(b, a) {
      DateBeforeCounts(b, a);
    }
  }

  // ----- The text

  function Digit(n: int): char
    requires 0 <= n < 10
  {
    '0' + n as char
  }

  /** `n` in decimal, padded with zeros to `width`. */
  function Padded(n: int, width: nat): string
    requires 0 <= n
  {
    if width == 0 then "" else Padded(n / 10, width - 1) + [Digit(n % 10)]
  }

  function Power10(n: nat): int {
    if n == 0 then 1 else 10 * Power10(n - 1)
  }

  function SecondText(t: DateTime): string
    requires Valid(t)
  {
    Padded(t.second, 2) + ("." + (Padded(t.micro, 6) + "+00:00"))
  }

  function TimeText(t: DateTime): string
    requires Valid(t)
  {
    Padded(t.hour, 2) + (":" + (Padded(t.minute, 2) + (":" + SecondText(t))))
  }

  /** `t.isoformat(timespec="microseconds")`. */
  function IsoText(t: DateTime): string
    requires Valid(t)
  {
    Padded(t.year, 4) + ("-" + (Padded(t.month, 2) + ("-" + (Padded(t.day, 2) + ("T" + TimeText(t))))))
  }

  lemma SameFirst(c: char, x: string, y: string)
    ensures StringLess([c] + x, [c] + y) <==> StringLess(x, y)
  {
    assert ([c] + x)[1..] == x && ([c] + y)[1..] == y;
  }

  lemma OtherFirst(c: char, d: char, x: string, y: string)
    requires c != d
    ensures StringLess([c] + x, [d] + y) <==> c < d
  {
  }

  /** A padded field followed by more text compares by its number first. */
  lemma {:induction false} FieldOrders(n: int, m: int, width: nat, x: string, y: string)
    requires 0 <= n < Power10(width) && 0 <= m < Power10(width)
    ensures StringLess(Padded(n, width) + x, Padded(m, width) + y) <==> n < m || (n == m && StringLess(x, y))
    decreases width
  {
    if width == 0 {
      assert Padded(n, width) + x == x && Padded(m, width) + y == y;
    } else {
      var a, b := Digit(n % 10), Digit(m % 10);
      assert Padded(n, width) + x == Padded(n / 10, width - 1) + ([a] + x);
      assert Padded(m, width) + y == Padded(m / 10, width - 1) + ([b] + y);
      FieldOrders(n / 10, m / 10, width - 1, [a] + x, [b] + y);
      if n % 10 == m % 10 {
        SameFirst(a, x, y);
      } else {
        OtherFirst(a, b, x, y);
      }
    }
  }

  lemma FieldThenOrders(n: int, m: int, width: nat, c: char, x: string, y: string)
    requires 0 <= n < Power10(width) && 0 <= m < Power10(width)
    ensures StringLess(Padded(n, width) + ([c] + x), Padded(m, width) + ([c] + y)) <==> n < m || (n == m && StringLess(x, y))
  {
    FieldOrders(n, m, width, [c] + x, [c] + y);
    SameFirst(c, x, y);
  }

  lemma PowersOfTen()
    ensures Power10(2) == 100 && Power10(4) == 10_000 && Power10(6) == 1_000_000
  {
    assert Power10(2) == 10 * Power10(1);
    assert Power10(4) == 100 * Power10(2);
    assert Power10(6) == 100 * Power10(4);
  }

  lemma TimeTextOrders(a: DateTime, b: DateTime)
    requires Valid(a) && Valid(b)
    ensures StringLess(TimeText(a), TimeText(b)) <==> TimeBefore(a, b)
  {
    PowersOfTen();
    StringLessTotal("+00:00", "+00:00");
    FieldOrders(a.micro, b.micro, 6, "+00:00", "+00:00");
    FieldThenOrders(a.second, b.second, 2, '.', Padded(a.micro, 6) + "+00:00", Padded(b.micro, 6) + "+00:00");
    FieldThenOrders(a.minute, b.minute, 2, ':', SecondText(a), SecondText(b));
    FieldThenOrders(a.hour, b.hour, 2, ':', Padded(a.minute, 2) + (":" + SecondText(a)), Padded(b.minute, 2) + (":" + SecondText(b)));
  }

  /** The order of the texts is the order of the instants. */
  lemma TextOrderIsTimeOrder(a: DateTime, b: DateTime)
    requires Valid(a) && Valid(b)
    ensures StringLess(IsoText(a), IsoText(b)) <==> Micros(a) < Micros(b)
  {
    PowersOfTen();
    TimeTextOrders(a, b);
    BeforeCounts(a, b);
    var da, db := Padded(a.day, 2) + ("T" + TimeText(a)), Padded(b.day, 2) + ("T" + TimeText(b));
    var ma, mb := Padded(a.month, 2) + ("-" + da), Padded(b.month, 2) + ("-" + db);
    FieldThenOrders(a.day, b.day, 2, 'T', TimeText(a), TimeText(b));
    FieldThenOrders(a.month, b.month, 2, '-', da, db);
    FieldThenOrders(a.year, b.year, 4, '-', ma, mb);
  }

  // ----- Subtracting days

  /** The month and day of day `n` of year `y`, counting from month `m`. */
  function MonthDay(n: int, y: int, m: int): (int, int)
    requires 1 <= m <= 12
    decreases 12 - m
  {
    if m == 12 || n < DaysInMonth(y, m) then (m, n + 1) else MonthDay(n - DaysInMonth(y, m), y, m + 1)
  }

  /** The year of day `n`, counting from the start of year `y`, and the day within it. */
  function YearDay(n: int, y: int): (int, int)
    decreases n
  {
    if n < DaysInYear(y) then (y, n) else YearDay(n - DaysInYear(y), y + 1)
  }

  lemma {:induction false} MonthDayCounts(n: int, y: int, m: int)
    requires 1 <= m <= 12 && 0 <= n < DaysInYear(y) - DaysBeforeMonth(y, m)
    ensures var (mm, d) := MonthDay(n, y, m);
            m <= mm <= 12 && 1 <= d <= DaysInMonth(y, mm) && DaysBeforeMonth(y, mm) + d - 1 == DaysBeforeMonth(y, m) + n
    decreases 12 - m
  {
    if m == 12 {
      MonthsFillYear(y);
      assert DaysBeforeMonth(y, 13) == DaysBeforeMonth(y, 12) + DaysInMonth(y, 12);
    } else if n >= DaysInMonth(y, m) {
      assert DaysBeforeMonth(y, m + 1) == DaysBeforeMonth(y, m) + DaysInMonth(y, m);
      MonthDayCounts(n - DaysInMonth(y, m), y, m + 1);
    }
  }

  lemma {:induction false} YearDayCounts(n: int, y: int)
    requires n >= 0 && y >= 1
    ensures var (yy, d) := YearDay(n, y);
            y <= yy && 0 <= d < DaysInYear(yy) && DaysBeforeYear(yy) + d == DaysBeforeYear(y) + n
    decreases n
  {
    if n >= DaysInYear(y) {
      YearDayCounts(n - DaysInYear(y), y + 1);
    }
  }

  /** `t - timedelta(days=days)`; `None` is the OverflowError before year 1. */
  function MinusDays(t: DateTime, days: nat): Option<DateTime>
    requires Valid(t)
  {
    var n := Day(t) - days;
    if n < 0 then None
    else
      var (y, d) := YearDay(n, 1);
      var (m, dd) := MonthDay(d, y, 1);
      Some(t.(year := y, month := m, day := dd))
  }

  /** Subtracting days gives the valid instant exactly that much earlier, if there is one. */
  lemma MinusDaysCounts(t: DateTime, days: nat)
    requires Valid(t)
    ensures MinusDays(t, days).None? <==> Day(t) < days
    ensures MinusDays(t, days).Some? ==>
              && Valid(MinusDays(t, days).value)
              && Micros(MinusDays(t, days).value) == Micros(t) - days * DAY_MICROS
  {
    var n := Day(t) - days;
    if n >= 0 {
      YearDayCounts(n, 1);
      var (y, d) := YearDay(n, 1);
      MonthDayCounts(d, y, 1);
      DayWithinYear(t);
      if y > t.year {
        YearsIncrease(t.year, y);
      }
    }
  }

  // ----- Reading the text back

  function Number(s: string): int {
    if s == "" then 0 else 10 * Number(s[..|s| - 1]) + (s[|s| - 1] as int - '0' as int)
  }

  lemma {:induction false} PaddedReads(n: int, width: nat)
    requires 0 <= n < Power10(width)
    ensures |Padded(n, width)| == width && Number(Padded(n, width)) == n
    decreases width
  {
    if width > 0 {
      PaddedReads(n / 10, width - 1);
      assert Padded(n, width)[..width - 1] == Padded(n / 10, width - 1);
      assert Digit(n % 10) as int - '0' as int == n % 10;
    }
  }

  /** A field, a mark, and the rest. */
  lemma FieldThen(n: int, width: nat, mark: char, rest: string)
    requires 0 <= n < Power10(width)
    ensures var text := Padded(n, width) + ([mark] + rest);
            |text| == width + 1 + |rest| && Number(text[..width]) == n && text[width] == mark && text[width + 1..] == rest
  {
    PaddedReads(n, width);
    assert (Padded(n, width) + ([mark] + rest))[..width] == Padded(n, width);
  }

  /** The text of an instant is `YYYY-MM-DDTHH:MM:SS.ffffff+00:00`, each field reading back as its number. */
  lemma IsoTextReads(t: DateTime)
    requires Valid(t)
    ensures var text := IsoText(t);
            && |text| == 32 && text[4] == '-' && text[7] == '-' && text[10] == 'T' && text[13] == ':' && text[16] == ':' && text[19] == '.'
            && text[26..] == "+00:00"
            && Number(text[..4]) == t.year && Number(text[5..7]) == t.month && Number(text[8..10]) == t.day
            && Number(text[11..13]) == t.hour && Number(text[14..16]) == t.minute && Number(text[17..19]) == t.second && Number(text[20..26]) == t.micro
  {
    DateReads(t);
    TimeReads(t);
    ShiftedSlices(IsoText(t), TimeText(t));
  }

  lemma ShiftedSlices(text: string, time: string)
    requires |time| == 21 && |text| == 32 && text[11..] == time
    ensures text[11..13] == time[..2] && text[14..16] == time[3..5] && text[17..19] == time[6..8] && text[20..26] == time[9..15]
    ensures text[13] == time[2] && text[16] == time[5] && text[19] == time[8] && text[26..] == time[15..]
  {
  }

  lemma DateReads(t: DateTime)
    requires Valid(t)
    ensures var text := IsoText(t);
            && |text| == 11 + |TimeText(t)| && text[4] == '-' && text[7] == '-' && text[10] == 'T' && text[11..] == TimeText(t)
            && Number(text[..4]) == t.year && Number(text[5..7]) == t.month && Number(text[8..10]) == t.day
  {
    PowersOfTen();
    var day := Padded(t.day, 2) + (['T'] + TimeText(t));
    var month := Padded(t.month, 2) + (['-'] + day);
    FieldThen(t.day, 2, 'T', TimeText(t));
    FieldThen(t.month, 2, '-', day);
    FieldThen(t.year, 4, '-', month);
    var text := IsoText(t);
    assert text[5..] == month && month[3..] == day;
    assert text[5..7] == month[..2] && text[8..10] == day[..2] && text[7] == month[2] && text[10] == day[2] && text[11..] == day[3..];
  }

  lemma TimeReads(t: DateTime)
    requires Valid(t)
    ensures var text := TimeText(t);
            && |text| == 21 && text[2] == ':' && text[5] == ':' && text[8] == '.' && text[15..] == "+00:00"
            && Number(text[..2]) == t.hour && Number(text[3..5]) == t.minute && Number(text[6..8]) == t.second && Number(text[9..15]) == t.micro
  {
    PowersOfTen();
    PaddedReads(t.micro, 6);
    var micro := Padded(t.micro, 6) + "+00:00";
    var second := Padded(t.second, 2) + (['.'] + micro);
    var minute := Padded(t.minute, 2) + ([':'] + second);
    FieldThen(t.second, 2, '.', micro);
    FieldThen(t.minute, 2, ':', second);
    FieldThen(t.hour, 2, ':', minute);
    var text := TimeText(t);
    assert text[3..] == minute && minute[3..] == second && second[3..] == micro;
    assert text[3..5] == minute[..2] && text[6..8] == second[..2] && text[9..15] == micro[..6] && text[15..] == micro[6..];
    assert text[5] == minute[2] && text[8] == second[2] && micro[..6] == Padded(t.micro, 6) && micro[6..] == "+00:00";
  }
}
