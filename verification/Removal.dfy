/** The removal service: a bucket ordered by the bytes of its keys, which start with an RFC 3339 time. */
module Removal {
  // ---------------------------------------------------------------- byte order

  /** Strict byte order of strings. */
  predicate Precedes(a: string, b: string) {
    b != "" && (a == "" || a[0] < b[0] || (a[0] == b[0] && Precedes(a[1..], b[1..])))
  }

  lemma {:induction false} PrecedesConcat(a: string, b: string, c: string, d: string)
    requires |a| == |c|
    ensures Precedes(a + b, c + d) <==> Precedes(a, c) || (a == c && Precedes(b, d))
    decreases |a|
  {
    if a == "" {
      assert a + b == b && c + d == d;
    } else {
      PrecedesConcat(a[1..], b, c[1..], d);
      assert (a + b)[1..] == a[1..] + b && (c + d)[1..] == c[1..] + d;
      assert a == [a[0]] + a[1..] && c == [c[0]] + c[1..];
    }
  }

  lemma {:induction false} PrecedesIrreflexive(a: string)
    ensures !Precedes(a, a)
    decreases |a|
  {
    if a != "" {
      PrecedesIrreflexive(a[1..]);
    }
  }

  lemma {:induction false} PrecedesTransitive(a: string, b: string, c: string)
    requires Precedes(a, b) && Precedes(b, c)
    ensures Precedes(a, c)
    decreases |a|
  {
    if a != "" && a[0] == b[0] && b[0] == c[0] {
      PrecedesTransitive(a[1..], b[1..], c[1..]);
    }
  }

  lemma {:induction false} PrecedesTotal(a: string, b: string)
    ensures a == b || Precedes(a, b) || Precedes(b, a)
    decreases |a|
  {
    if a != "" && b != "" && a[0] == b[0] {
      PrecedesTotal(a[1..], b[1..]);
      assert a == [a[0]] + a[1..] && b == [b[0]] + b[1..];
    }
  }

  // ---------------------------------------------------------------- fixed-width numbers

  function DigitOf(d: nat): char
    requires d < 10
  {
    '0' + d as char
  }

  function Power10(w: nat): nat {
    if w == 0 then 1 else 10 * Power10(w - 1)
  }

  function Pad(n: nat, w: nat): (s: string)
    ensures |s| == w
  {
    if w == 0 then "" else Pad(n / 10, w - 1) + [DigitOf(n % 10)]
  }

  /** Numbers that fit are ordered like their padded texts. */
  lemma {:induction false} PadOrder(m: nat, n: nat, w: nat)
    requires m < Power10(w) && n < Power10(w)
    ensures Precedes(Pad(m, w), Pad(n, w)) <==> m < n
    ensures Pad(m, w) == Pad(n, w) <==> m == n
  {
    if w > 0 {
      PadOrder(m / 10, n / 10, w - 1);
      var a, b := [DigitOf(m % 10)], [DigitOf(n % 10)];
      PrecedesConcat(Pad(m / 10, w - 1), a, Pad(n / 10, w - 1), b);
      assert Precedes(a, b) <==> m % 10 < n % 10;
      assert Pad(m, w)[..w - 1] == Pad(m / 10, w - 1) && Pad(m, w)[w - 1] == DigitOf(m % 10);
      assert Pad(n, w)[..w - 1] == Pad(n / 10, w - 1) && Pad(n, w)[w - 1] == DigitOf(n % 10);
    }
  }

  // ---------------------------------------------------------------- calendar

  predicate Leap(year: nat) {
    year % 4 == 0 && (year % 100 != 0 || year % 400 == 0)
  }

  function DaysInYear(year: nat): nat {
    if Leap(year) then 366 else 365
  }

  function DaysInMonth(year: nat, month: nat): nat {
    if month == 2 then (if Leap(year) then 29 else 28)
    else if month == 4 || month == 6 || month == 9 || month == 11 then 30
    else 31
  }

  datatype YearDay = YearDay(year: nat, day: nat)
  datatype MonthDay = MonthDay(month: nat, day: nat)

  /** The year and the day in it, counting `day` days from the first of January of `year`. */
  function YearOf(day: nat, year: nat): (r: YearDay)
    ensures r.day < DaysInYear(r.year) && r.year >= year
    decreases day
  {
    if day < DaysInYear(year) then YearDay(year, day) else YearOf(day - DaysInYear(year), year + 1)
  }

  function MonthOf(day: nat, year: nat, month: nat): (r: MonthDay)
    requires 1 <= month <= 12
    ensures month <= r.month <= 12
    decreases 12 - month
  {
    if day < DaysInMonth(year, month) || month == 12 then MonthDay(month, day)
    else MonthOf(day - DaysInMonth(year, month), year, month + 1)
  }

  lemma {:induction false} YearOrder(d: nat, e: nat, year: nat)
    requires d < e
    ensures YearOf(d, year).year < YearOf(e, year).year
         || (YearOf(d, year).year == YearOf(e, year).year && YearOf(d, year).day < YearOf(e, year).day)
    decreases d
  {
    if d >= DaysInYear(year) {
      YearOrder(d - DaysInYear(year), e - DaysInYear(year), year + 1);
    }
  }

  lemma {:induction false} MonthOrder(d: nat, e: nat, year: nat, month: nat)
    requires 1 <= month <= 12 && d < e
    ensures MonthOf(d, year, month).month < MonthOf(e, year, month).month
         || (MonthOf(d, year, month).month == MonthOf(e, year, month).month &&
           MonthOf(d, year, month).day < MonthOf(e, year, month).day)
    decreases 12 - month
  {
    if d >= DaysInMonth(year, month) && month < 12 {
      MonthOrder(d - DaysInMonth(year, month), e - DaysInMonth(year, month), year, month + 1);
    }
  }

  function DaysLeft(year: nat, month: nat): nat
    requires 1 <= month <= 12
    decreases 12 - month
  {
    DaysInMonth(year, month) + if month == 12 then 0 else DaysLeft(year, month + 1)
  }

  lemma {:induction false} DayInMonth(day: nat, year: nat, month: nat)
    requires 1 <= month <= 12 && day < DaysLeft(year, month)
    ensures MonthOf(day, year, month).day < 31
    decreases 12 - month
  {
    if day >= DaysInMonth(year, month) && month < 12 {
      DayInMonth(day - DaysInMonth(year, month), year, month + 1);
    }
  }

  lemma YearHasItsDays(year: nat)
    ensures DaysLeft(year, 1) == DaysInYear(year)
  {
    assert DaysLeft(year, 9) == 122;
    assert DaysLeft(year, 5) ==
      DaysInMonth(year, 5) + DaysInMonth(year, 6) + DaysInMonth(year, 7) + DaysInMonth(year, 8) + DaysLeft(year, 9);
    assert DaysLeft(year, 1) ==
      DaysInMonth(year, 1) + DaysInMonth(year, 2) + DaysInMonth(year, 3) + DaysInMonth(year, 4) + DaysLeft(year, 5);
  }

  // ---------------------------------------------------------------- the calendar counts every day

  /** How many days there are before the first of January of a year, counted in closed form. */
  function DaysBeforeYear(year: nat): nat {
    365 * year + (year + 3) / 4 - (year + 99) / 100 + (year + 399) / 400
  }

  /** And before the first of a month of that year. */
  function DaysBeforeMonth(year: nat, month: nat): nat
    requires 1 <= month <= 12
  {
    [0, 31, 59, 90, 120, 151, 181, 212, 243, 273, 304, 334][month - 1]
    + if month > 2 && year % 4 == 0 && (year % 100 != 0 || year % 400 == 0) then 1 else 0
  }

  lemma NextYear(year: nat)
    ensures DaysBeforeYear(year + 1) == DaysBeforeYear(year) + DaysInYear(year)
  {
    assert (year + 4) / 4 == (year + 3) / 4 + if year % 4 == 0 then 1 else 0;
    assert (year + 100) / 100 == (year + 99) / 100 + if year % 100 == 0 then 1 else 0;
    assert (year + 400) / 400 == (year + 399) / 400 + if year % 400 == 0 then 1 else 0;
    LeapDivides(year);
  }

  lemma LeapDivides(year: nat)
    ensures year % 400 == 0 ==> year % 100 == 0
    ensures year % 100 == 0 ==> year % 4 == 0
  {
    if year % 400 == 0 {
      assert year == 100 * (4 * (year / 400));
    }
    if year % 100 == 0 {
      assert year == 4 * (25 * (year / 100));
    }
  }

  lemma NextMonth(year: nat, month: nat)
    requires 1 <= month < 12
    ensures DaysBeforeMonth(year, month + 1) == DaysBeforeMonth(year, month) + DaysInMonth(year, month)
  {
  }

  lemma {:induction false} YearsInOrder(year: nat, later: nat)
    requires year < later
    ensures DaysBeforeYear(year) + DaysInYear(year) <= DaysBeforeYear(later)
    decreases later
  {
    hide DaysBeforeYear, DaysInYear;
    NextYear(later - 1);
    if year < later - 1 {
      YearsInOrder(year, later - 1);
    }
  }

  lemma {:induction false} MonthsInOrder(year: nat, month: nat, later: nat)
    requires 1 <= month < later <= 12
    ensures DaysBeforeMonth(year, month) + DaysInMonth(year, month) <= DaysBeforeMonth(year, later)
    decreases later
  {
    hide DaysBeforeMonth, DaysInMonth;
    NextMonth(year, later - 1);
    if month < later - 1 {
      MonthsInOrder(year, month, later - 1);
    }
  }

  lemma {:induction false} YearCounts(day: nat, year: nat)
    ensures var r := YearOf(day, year); DaysBeforeYear(r.year) + r.day == DaysBeforeYear(year) + day
    decreases day
  {
    hide DaysBeforeYear;
    NextYear(year);
    if day >= DaysInYear(year) {
      YearCounts(day - DaysInYear(year), year + 1);
    }
  }

  lemma {:induction false} MonthCounts(day: nat, year: nat, month: nat)
    requires 1 <= month <= 12 && day < DaysLeft(year, month)
    ensures var r := MonthOf(day, year, month);
      DaysBeforeMonth(year, r.month) + r.day == DaysBeforeMonth(year, month) + day && r.day < DaysInMonth(year, r.month)
    decreases 12 - month
  {
    hide DaysBeforeMonth, DaysInMonth;
    if month < 12 {
      NextMonth(year, month);
    }
    if day >= DaysInMonth(year, month) && month < 12 {
      MonthCounts(day - DaysInMonth(year, month), year, month + 1);
    }
  }

  lemma NothingBefore()
    ensures DaysBeforeYear(0) == 0
  {
  }

  lemma YearOfNumber(year: nat, day: nat)
    requires day < DaysInYear(year)
    ensures YearOf(DaysBeforeYear(year) + day, 0) == YearDay(year, day)
  {
    hide DaysBeforeYear, DaysInYear, YearOf;
    NothingBefore();
    var n: nat := DaysBeforeYear(year) + day;
    var y := YearOf(n, 0);
    YearCounts(n, 0);
    if y.year < year {
      YearsInOrder(y.year, year);
    } else if y.year > year {
      YearsInOrder(year, y.year);
    }
  }

  lemma MonthOfNumber(year: nat, month: nat, day: nat)
    requires 1 <= month <= 12 && day < DaysInMonth(year, month)
    ensures DaysBeforeMonth(year, month) + day < DaysInYear(year)
    ensures MonthOf(DaysBeforeMonth(year, month) + day, year, 1) == MonthDay(month, day)
  {
    YearHasItsDays(year);
    MonthStartsInYear(year, month);
    MonthStartsInYear(year, 1);
    hide DaysBeforeMonth, DaysInMonth, DaysInYear, MonthOf, DaysLeft;
    var n: nat := DaysBeforeMonth(year, month) + day;
    MonthCounts(n, year, 1);
    var m := MonthOf(n, year, 1);
    if m.month < month {
      MonthsInOrder(year, m.month, month);
    } else if m.month > month {
      MonthsInOrder(year, month, m.month);
    }
  }

  lemma MonthStartsInYear(year: nat, month: nat)
    requires 1 <= month <= 12
    ensures DaysBeforeMonth(year, month) <= DaysInYear(year) - DaysInMonth(year, month)
    ensures DaysBeforeMonth(year, 1) == 0
  {
  }

  // ---------------------------------------------------------------- timestamps

  const SECOND := 1_000_000_000
  const KEEP := 300 * SECOND
  const DAY := 86400

  function Fields(x: nat, w: nat, y: nat, z: nat, sep: char): (s: string)
    ensures |s| == w + 6
  {
    Pad(x, w) + ([sep] + Pad(y, 2) + ([sep] + Pad(z, 2)))
  }

  lemma FieldsOrder(x: nat, y: nat, z: nat, x': nat, y': nat, z': nat, w: nat, sep: char)
    requires x < Power10(w) && x' < Power10(w) && y < 100 && y' < 100 && z < 100 && z' < 100
    requires x < x' || (x == x' && (y < y' || (y == y' && z < z')))
    ensures Precedes(Fields(x, w, y, z, sep), Fields(x', w, y', z', sep))
  {
    assert Power10(2) == 100 by { assert Power10(1) == 10; }
    PadOrder(x, x', w);
    PadOrder(y, y', 2);
    PadOrder(z, z', 2);
    PrecedesConcat(
      Pad(x, w), [sep] + Pad(y, 2) + ([sep] + Pad(z, 2)),
      Pad(x', w), [sep] + Pad(y', 2) + ([sep] + Pad(z', 2)));
    PrecedesConcat([sep] + Pad(y, 2), [sep] + Pad(z, 2), [sep] + Pad(y', 2), [sep] + Pad(z', 2));
    PrecedesConcat([sep], Pad(y, 2), [sep], Pad(y', 2));
    PrecedesConcat([sep], Pad(z, 2), [sep], Pad(z', 2));
    PrecedesIrreflexive([sep]);
  }

  function DateText(day: nat): (s: string) {
    var y := YearOf(day, 0);
    var m := MonthOf(y.day, y.year, 1);
    Fields(y.year, 4, m.month, m.day + 1, '-')
  }

  function TimeText(second: nat): (s: string) {
    Fields(second / 60 / 60, 2, second / 60 % 60, second % 60, ':')
  }

  /** `local` counts the seconds of the zone's clock from the first of January of year 0. */
  function Stamp(local: nat, zone: string): string {
    DateText(local / DAY) + ("T" + (TimeText(local % DAY) + zone))
  }

  predicate FourDigitYear(local: nat) {
    YearOf(local / DAY, 0).year <= 9999
  }

  /** The timestamp of a second of a day of the calendar, field by field. */
  lemma StampExact(year: nat, month: nat, day: nat, hour: nat, minute: nat, second: nat, zone: string)
    requires 1 <= month <= 12 && 1 <= day <= DaysInMonth(year, month) && hour < 24 && minute < 60 && second < 60
    ensures Stamp(
              86400 * (DaysBeforeYear(year) + DaysBeforeMonth(year, month) + day - 1)
              + 3600 * hour + 60 * minute + second, zone)
         == Fields(year, 4, month, day, '-') + ("T" + (Fields(hour, 2, minute, second, ':') + zone))
  {
    hide Stamp, DateText, TimeText, DaysBeforeYear, DaysBeforeMonth, DaysInMonth, YearOf, MonthOf, Fields;
    var d := DaysBeforeMonth(year, month) + (day - 1);
    MonthOfNumber(year, month, day - 1);
    YearOfNumber(year, d);
    DateOfNumber(DaysBeforeYear(year) + d);
    ClockFields(hour, minute, second);
    StampOf(DaysBeforeYear(year) + d, 3600 * hour + 60 * minute + second, zone);
  }

  lemma DateOfNumber(n: nat)
    ensures var y := YearOf(n, 0); var m := MonthOf(y.day, y.year, 1);
      DateText(n) == Fields(y.year, 4, m.month, m.day + 1, '-')
  {
  }

  lemma StampOf(n: nat, s: nat, zone: string)
    requires s < DAY
    ensures Stamp(86400 * n + s, zone) == DateText(n) + ("T" + (TimeText(s) + zone))
  {
    hide DateText, TimeText;
    assert (86400 * n + s) / DAY == n && (86400 * n + s) % DAY == s;
  }

  lemma ClockFields(hour: nat, minute: nat, second: nat)
    requires hour < 24 && minute < 60 && second < 60
    ensures var s := 3600 * hour + 60 * minute + second;
      s < DAY && TimeText(s) == Fields(hour, 2, minute, second, ':')
  {
    hide Fields;
    Sixties(60 * hour + minute, second);
    Sixties(hour, minute);
  }

  lemma Sixties(n: nat, rest: nat)
    requires rest < 60
    ensures (60 * n + rest) / 60 == n && (60 * n + rest) % 60 == rest
  {
  }

  lemma TwoDigits(n: nat)
    requires n < 100
    ensures Pad(n, 2) == ["0123456789"[n / 10], "0123456789"[n % 10]]
  {
    assert Pad(n / 10, 1) == [DigitOf(n / 10)];
  }

  lemma FourDigits(n: nat)
    requires n < 10000
    ensures Pad(n, 4) == Pad(n / 100, 2) + Pad(n % 100, 2)
  {
    assert n / 10 / 10 == n / 100 && n / 10 % 10 == n % 100 / 10 && n % 10 == n % 100 % 10;
    assert Pad(n, 4) == Pad(n / 10 / 10, 2) + [DigitOf(n / 10 % 10)] + [DigitOf(n % 10)];
    assert Pad(n % 100, 2) == [DigitOf(n % 100 / 10)] + [DigitOf(n % 100 % 10)];
  }

  lemma LeapDayFields()
    ensures Fields(2020, 4, 2, 29, '-') == "2020-02-29" && Fields(23, 2, 59, 59, ':') == "23:59:59"
  {
    FourDigits(2020);
    TwoDigits(20);
    TwoDigits(2);
    TwoDigits(29);
    TwoDigits(23);
    TwoDigits(59);
    hide Pad;
    assert Pad(2020, 4) == "2020" && Pad(2, 2) == "02" && Pad(29, 2) == "29" && Pad(23, 2) == "23";
  }

  lemma LeapDayNumber()
    ensures DaysBeforeYear(2020) + DaysBeforeMonth(2020, 2) + 29 - 1 == 737849 && DaysInMonth(2020, 2) == 29
  {
    assert DaysBeforeMonth(2020, 2) == 31;
  }

  /** The last second of the 29th of February 2020. */
  lemma LeapDayExample()
    ensures Stamp(86400 * 737849 + 86399, "Z") == "2020-02-29T23:59:59Z"
  {
    hide Stamp, Fields, DaysBeforeYear, DaysBeforeMonth, DaysInMonth;
    LeapDayNumber();
    StampExact(2020, 2, 29, 23, 59, 59, "Z");
    LeapDayFields();
    assert "2020-02-29" + ("T" + ("23:59:59" + "Z")) == "2020-02-29T23:59:59Z" by { Joined(); }
  }

  lemma Joined()
    ensures "2020-02-29" + ("T" + ("23:59:59" + "Z")) == "2020-02-29T23:59:59Z"
  {
    assert "23:59:59" + "Z" == "23:59:59Z";
    assert "T" + "23:59:59Z" == "T23:59:59Z";
    assert "2020-02-29" + "T23:59:59Z" == "2020-02-29T23:59:59Z";
  }

  lemma DateFields(d: nat)
    ensures MonthOf(YearOf(d, 0).day, YearOf(d, 0).year, 1).day < 31
  {
    YearHasItsDays(YearOf(d, 0).year);
    DayInMonth(YearOf(d, 0).day, YearOf(d, 0).year, 1);
  }

  /** Later days have a later year, or in the same year a later month, or in the same month a later day. */
  lemma DateEarlier(d: nat, e: nat)
    requires d < e
    ensures var y, y' := YearOf(d, 0), YearOf(e, 0);
      var m, m' := MonthOf(y.day, y.year, 1), MonthOf(y'.day, y'.year, 1);
      y.year < y'.year || (y.year == y'.year && (m.month < m'.month || (m.month == m'.month && m.day < m'.day)))
  {
    YearOrder(d, e, 0);
    if YearOf(d, 0).year == YearOf(e, 0).year {
      MonthOrder(YearOf(d, 0).day, YearOf(e, 0).day, YearOf(d, 0).year, 1);
    }
  }

  lemma DateOrder(d: nat, e: nat)
    requires d < e && YearOf(e, 0).year <= 9999
    ensures Precedes(DateText(d), DateText(e))
  {
    hide YearOf, MonthOf, Precedes;
    DateFields(d);
    DateFields(e);
    DateEarlier(d, e);
    assert Power10(4) == 10000 by { assert Power10(2) == 100 by { assert Power10(1) == 10; } }
    var y, y' := YearOf(d, 0), YearOf(e, 0);
    var m, m' := MonthOf(y.day, y.year, 1), MonthOf(y'.day, y'.year, 1);
    FieldsOrder(y.year, m.month, m.day + 1, y'.year, m'.month, m'.day + 1, 4, '-');
  }

  lemma DivOrder(s: nat, t: nat)
    requires s < t
    ensures s / 60 < t / 60 || (s / 60 == t / 60 && s % 60 < t % 60)
  {
  }

  lemma TimeOrder(s: nat, t: nat)
    requires s < t < DAY
    ensures Precedes(TimeText(s), TimeText(t))
  {
    assert Power10(2) == 100 by { assert Power10(1) == 10; }
    DivOrder(s, t);
    if s / 60 < t / 60 {
      DivOrder(s / 60, t / 60);
    }
    FieldsOrder(s / 60 / 60, s / 60 % 60, s % 60, t / 60 / 60, t / 60 % 60, t % 60, 2, ':');
  }

  /** Timestamps of one zone are ordered like the clock. */
  lemma StampEarlier(a: nat, b: nat, zone: string)
    requires a < b && FourDigitYear(b)
    ensures Precedes(Stamp(a, zone), Stamp(b, zone))
  {
    var rest, rest' := "T" + (TimeText(a % DAY) + zone), "T" + (TimeText(b % DAY) + zone);
    PrecedesConcat(DateText(a / DAY), rest, DateText(b / DAY), rest');
    if a / DAY < b / DAY {
      DateOrder(a / DAY, b / DAY);
    } else {
      assert a / DAY == b / DAY && a % DAY < b % DAY;
      TimeOrder(a % DAY, b % DAY);
      PrecedesConcat(TimeText(a % DAY), zone, TimeText(b % DAY), zone);
      PrecedesConcat("T", TimeText(a % DAY) + zone, "T", TimeText(b % DAY) + zone);
    }
  }

  lemma StampLength(a: nat, b: nat, zone: string)
    ensures |Stamp(a, zone)| == |Stamp(b, zone)|
  {
  }

  /** A key: a timestamp and a suffix that starts with an underscore. */
  function KeyOf(local: nat, zone: string, category: string, path: string): string {
    Stamp(local, zone) + ("_" + category + "_" + path)
  }

  predicate AtMost(a: string, b: string) {
    a == b || Precedes(a, b)
  }

  /** A key is at most a bare timestamp exactly when its own second is strictly earlier. */
  lemma KeyOrder(a: nat, b: nat, zone: string, category: string, path: string)
    requires FourDigitYear(a) && FourDigitYear(b)
    ensures AtMost(KeyOf(a, zone, category, path), Stamp(b, zone)) <==> a < b
  {
    var suffix := "_" + category + "_" + path;
    StampLength(a, b, zone);
    PrecedesConcat(Stamp(a, zone), suffix, Stamp(b, zone), "");
    assert Stamp(b, zone) + "" == Stamp(b, zone);
    assert |KeyOf(a, zone, category, path)| > |Stamp(b, zone)|;
    if a < b {
      StampEarlier(a, b, zone);
    } else if b < a {
      StampEarlier(b, a, zone);
      if Precedes(Stamp(a, zone), Stamp(b, zone)) {
        PrecedesTransitive(Stamp(a, zone), Stamp(b, zone), Stamp(a, zone));
        PrecedesIrreflexive(Stamp(a, zone));
      }
    } else {
      PrecedesIrreflexive(Stamp(a, zone));
    }
  }

  /** Instants are nanoseconds from the same origin; a timestamp keeps whole seconds only. */
  function Second(t: nat): nat {
    t / SECOND
  }

  function QueueKey(queuedAt: nat, zone: string, category: string, path: string): string {
    KeyOf(Second(queuedAt + KEEP), zone, category, path)
  }

  /**
   * When a sweep takes an entry, exactly: the second five minutes after queueing lies strictly before the
   * sweep's second. So more than five minutes have passed, and after five minutes and a second it is due.
   */
  lemma SweptExactly(queuedAt: nat, now: nat, zone: string, category: string, path: string)
    requires FourDigitYear(Second(queuedAt + KEEP)) && FourDigitYear(Second(now))
    ensures var swept := AtMost(QueueKey(queuedAt, zone, category, path), Stamp(Second(now), zone));
      && (swept <==> (queuedAt + 300_000_000_000) / 1_000_000_000 < now / 1_000_000_000)
      && (swept ==> now > queuedAt + 300_000_000_000)
      && (now >= queuedAt + 301_000_000_000 ==> swept)
  {
    KeyOrder(Second(queuedAt + KEEP), Second(now), zone, category, path);
  }

  // ---------------------------------------------------------------- the bucket

  datatype FileInfo = FileInfo(category: string, path: string)
  datatype Entry = Entry(key: string, file: FileInfo)

  predicate Sorted(entries: seq<Entry>) {
    forall i, j :: 0 <= i < j < |entries| ==> Precedes(entries[i].key, entries[j].key)
  }

  /** Between the two ends of a sweep, both included. */
  predicate Due(key: string, min: string, max: string) {
    !Precedes(key, min) && AtMost(key, max)
  }

  /** Both ends of a sweep belong to it, and nothing outside does. */
  lemma EndsIncluded(key: string, min: string, max: string)
    requires AtMost(min, max)
    ensures Due(min, min, max) && Due(max, min, max)
    ensures Precedes(key, min) || Precedes(max, key) ==> !Due(key, min, max)
  {
    PrecedesIrreflexive(min);
    PrecedesIrreflexive(max);
    if Precedes(max, min) && Precedes(min, max) {
      PrecedesTransitive(max, min, max);
    }
    if Precedes(max, key) && Precedes(key, max) {
      PrecedesTransitive(max, key, max);
    }
  }

  lemma DueDownwards(a: string, b: string, max: string)
    requires Precedes(a, b) && AtMost(b, max)
    ensures AtMost(a, max)
  {
    if b != max {
      PrecedesTransitive(a, b, max);
    }
  }

  lemma NotBelowUpwards(a: string, b: string, min: string)
    requires !Precedes(a, min) && Precedes(a, b)
    ensures !Precedes(b, min)
  {
    if Precedes(b, min) {
      PrecedesTransitive(a, b, min);
    }
  }

  /** A key-ordered store, as a bucket keeps it. */
  class RemovalBucket {
    var entries: seq<Entry>

    constructor ()
      ensures entries == [] && Sorted(entries)
    {
      entries := [];
    }

    /** Queues a file: stored under its key, replacing an equal key. */
    method Put(key: string, file: FileInfo)
      requires Sorted(entries)
      modifies this
      ensures Sorted(entries)
      ensures forall e :: e in entries <==> e == Entry(key, file) || (e in old(entries) && e.key != key)
    {
      var at := 0;
      while at < |entries| && Precedes(entries[at].key, key)
        invariant 0 <= at <= |entries|
        invariant forall i :: 0 <= i < at ==> Precedes(entries[i].key, key)
      {
        at := at + 1;
      }
      var rest := at;
      if at < |entries| {
        PrecedesTotal(entries[at].key, key);
        if entries[at].key == key {
          rest := at + 1;
        }
      }
      KeysBehind(entries, key, at, rest);
      Placed(entries, Entry(key, file), at, rest);
      entries := entries[..at] + [Entry(key, file)] + entries[rest..];
    }

    /** Takes every entry between `min` and `max` out of the bucket, in key order. */
    method Sweep(min: string, max: string) returns (files: seq<FileInfo>)
      requires Sorted(entries)
      modifies this
      ensures Sorted(entries)
      ensures forall e :: e in entries <==> e in old(entries) && !Due(e.key, min, max)
      ensures forall f :: f in files <==> exists e :: e in old(entries) && Due(e.key, min, max) && e.file == f
      ensures |files| + |entries| == |old(entries)|
    {
      var first := 0;
      while first < |entries| && Precedes(entries[first].key, min)
        invariant 0 <= first <= |entries|
        invariant forall i :: 0 <= i < first ==> Precedes(entries[i].key, min)
      {
        first := first + 1;
      }
      files := [];
      var to := first;
      while to < |entries| && AtMost(entries[to].key, max)
        invariant first <= to <= |entries|
        invariant |files| == to - first && forall j :: 0 <= j < |files| ==> files[j] == entries[first + j].file
        invariant forall i :: first <= i < to ==> AtMost(entries[i].key, max)
      {
        assert first + |files| == to;
        files := files + [entries[to].file];
        assert files[|files| - 1] == entries[first + |files| - 1].file;
        to := to + 1;
      }
      DueRange(entries, first, to, min, max);
      forall f ensures f in files <==> exists e :: e in entries && Due(e.key, min, max) && e.file == f {
        SweptFile(entries, first, to, files, min, max, f);
      }
      EntriesLeft(entries, first, to, min, max);
      entries := entries[..first] + entries[to..];
    }

    /** The request of the file store: the file is due five minutes from now. */
    method RemoveFile(now: nat, zone: string, category: string, path: string)
      requires Sorted(entries)
      modifies this
      ensures Sorted(entries)
      ensures var key := Stamp((now + 300_000_000_000) / 1_000_000_000, zone) + ("_" + category + "_" + path);
        forall e :: e in entries <==>
          e == Entry(key, FileInfo(category, path)) || (e in old(entries) && e.key != key)
      ensures exists e :: e in entries && QueuedAt(e, now, zone) && e.file == FileInfo(category, path)
    {
      Put(QueueKey(now, zone, category, path), FileInfo(category, path));
      assert QueuedAt(Entry(QueueKey(now, zone, category, path), FileInfo(category, path)), now, zone);
    }

    /**
     * One sweep of the service, from the second `epoch` at which its clock starts up to now: an entry queued at
     * some time stays exactly if five minutes later is not yet a second that has passed.
     */
    method Tick(now: nat, zone: string, epoch: nat) returns (files: seq<FileInfo>)
      requires Sorted(entries) && FourDigitYear(Second(now)) && FourDigitYear(epoch)
      modifies this
      ensures Sorted(entries)
      ensures forall e, at: nat ::
        e in old(entries) && QueuedAt(e, at, zone) && epoch <= Second(at + KEEP) && FourDigitYear(Second(at + KEEP)) ==>
          && (e in entries <==> now / 1_000_000_000 <= (at + 300_000_000_000) / 1_000_000_000)
          && (now <= at + 300_000_000_000 ==> e in entries)
          && (now >= at + 301_000_000_000 ==> e !in entries)
          && (e !in entries ==> e.file in files)
    {
      ghost var before := entries;
      files := Sweep(Stamp(epoch, zone), Stamp(Second(now), zone));
      forall e, at: nat |
        e in before && QueuedAt(e, at, zone) && epoch <= Second(at + KEEP) && FourDigitYear(Second(at + KEEP))
        ensures e in entries <==> now / 1_000_000_000 <= (at + 300_000_000_000) / 1_000_000_000
        ensures e !in entries ==> e.file in files
      {
        DueExactly(at, now, epoch, zone, e.file.category, e.file.path);
      }
    }
  }

  /** Two files of one category queued in the same second have keys of their own. */
  lemma QueueKeysDistinct(at: nat, zone: string, category: string, path: string, at': nat, path': string)
    requires Second(at + KEEP) == Second(at' + KEEP)
    ensures QueueKey(at, zone, category, path) == QueueKey(at', zone, category, path') <==> path == path'
  {
    var stamp := Stamp(Second(at + KEEP), zone) + ("_" + category + "_");
    assert QueueKey(at, zone, category, path) == stamp + path;
    assert QueueKey(at', zone, category, path') == stamp + path';
    assert (stamp + path)[|stamp|..] == path && (stamp + path')[|stamp|..] == path';
  }

  /** The entry was queued at that time. */
  predicate QueuedAt(e: Entry, at: nat, zone: string) {
    e.key == QueueKey(at, zone, e.file.category, e.file.path)
  }

  /** With the lower end of a sweep: an entry is taken exactly between the seconds of the two ends. */
  lemma DueExactly(queuedAt: nat, now: nat, epoch: nat, zone: string, category: string, path: string)
    requires FourDigitYear(Second(queuedAt + KEEP)) && FourDigitYear(Second(now)) && FourDigitYear(epoch)
    ensures Due(QueueKey(queuedAt, zone, category, path), Stamp(epoch, zone), Stamp(Second(now), zone))
            <==> epoch <= (queuedAt + 300_000_000_000) / 1_000_000_000 < now / 1_000_000_000
  {
    var key := QueueKey(queuedAt, zone, category, path);
    KeyOrder(Second(queuedAt + KEEP), Second(now), zone, category, path);
    KeyOrder(Second(queuedAt + KEEP), epoch, zone, category, path);
    StampLength(Second(queuedAt + KEEP), epoch, zone);
    assert key != Stamp(epoch, zone) by {
      assert |key| > |Stamp(epoch, zone)|;
    }
  }

  lemma EntriesLeft(entries: seq<Entry>, first: nat, to: nat, min: string, max: string)
    requires Sorted(entries) && first <= to <= |entries|
    requires forall i :: 0 <= i < |entries| ==> (Due(entries[i].key, min, max) <==> first <= i < to)
    ensures Sorted(entries[..first] + entries[to..])
    ensures forall e :: e in entries[..first] + entries[to..] <==> e in entries && !Due(e.key, min, max)
  {
    forall e | e in entries && !Due(e.key, min, max) ensures e in entries[..first] + entries[to..] {
      var i :| 0 <= i < |entries| && entries[i] == e;
      assert i < first ==> entries[..first][i] == e;
      assert i >= to ==> entries[to..][i - to] == e;
    }
  }

  /** The entries from `rest` on come after the key. */
  lemma KeysBehind(entries: seq<Entry>, key: string, at: nat, rest: nat)
    requires Sorted(entries) && at <= rest <= |entries|
    requires if at == rest then at < |entries| ==> Precedes(key, entries[at].key)
             else rest == at + 1 && entries[at].key == key
    ensures forall i :: rest <= i < |entries| ==> Precedes(key, entries[i].key)
  {
    forall i | rest <= i < |entries| ensures Precedes(key, entries[i].key) {
      if at == rest && i > at {
        PrecedesTransitive(key, entries[at].key, entries[i].key);
      }
    }
  }

  lemma Placed(entries: seq<Entry>, e: Entry, at: nat, rest: nat)
    requires Sorted(entries) && at <= rest <= |entries|
    requires forall i :: 0 <= i < at ==> Precedes(entries[i].key, e.key)
    requires forall i :: at <= i < rest ==> entries[i].key == e.key
    requires forall i :: rest <= i < |entries| ==> Precedes(e.key, entries[i].key)
    ensures var placed := entries[..at] + [e] + entries[rest..];
      && Sorted(placed) && forall x :: x in placed <==> x == e || (x in entries && x.key != e.key)
  {
    PrecedesIrreflexive(e.key);
    var before, after := entries[..at], entries[rest..];
    assert forall i :: 0 <= i < |after| ==> after[i] == entries[rest + i];
    SortedInsert(before, e, after);
    forall x | x in entries && x.key != e.key ensures x in before || x in after {
      var i :| 0 <= i < |entries| && entries[i] == x;
      assert i < at ==> before[i] == x;
      assert i >= rest ==> after[i - rest] == x;
    }
  }

  lemma SortedInsert(before: seq<Entry>, e: Entry, after: seq<Entry>)
    requires Sorted(before) && Sorted(after)
    requires forall i :: 0 <= i < |before| ==> Precedes(before[i].key, e.key)
    requires forall i :: 0 <= i < |after| ==> Precedes(e.key, after[i].key)
    ensures Sorted(before + [e] + after)
  {
    forall i, j | 0 <= i < |before| && 0 <= j < |after| ensures Precedes(before[i].key, after[j].key) {
      PrecedesTransitive(before[i].key, e.key, after[j].key);
    }
  }

  lemma SweptFile(entries: seq<Entry>, first: nat, to: nat, files: seq<FileInfo>, min: string, max: string, f: FileInfo)
    requires first <= to <= |entries| && |files| == to - first
    requires forall j :: 0 <= j < |files| ==> files[j] == entries[first + j].file
    requires forall i :: 0 <= i < |entries| ==> (Due(entries[i].key, min, max) <==> first <= i < to)
    ensures f in files <==> exists e :: e in entries && Due(e.key, min, max) && e.file == f
  {
    if f in files {
      var j :| 0 <= j < |files| && files[j] == f;
      assert entries[first + j] in entries && Due(entries[first + j].key, min, max);
    }
    forall e | e in entries && Due(e.key, min, max) && e.file == f ensures f in files {
      var i :| 0 <= i < |entries| && entries[i] == e;
      assert files[i - first] == f;
    }
  }

  lemma DueRange(entries: seq<Entry>, first: nat, to: nat, min: string, max: string)
    requires Sorted(entries) && first <= to <= |entries|
    requires forall i :: 0 <= i < first ==> Precedes(entries[i].key, min)
    requires first < |entries| ==> !Precedes(entries[first].key, min)
    requires forall i :: first <= i < to ==> AtMost(entries[i].key, max)
    requires to < |entries| ==> !AtMost(entries[to].key, max)
    ensures forall i :: 0 <= i < |entries| ==> (Due(entries[i].key, min, max) <==> first <= i < to)
  {
    forall i | 0 <= i < |entries| ensures Due(entries[i].key, min, max) <==> first <= i < to {
      if first < i {
        NotBelowUpwards(entries[first].key, entries[i].key, min);
      }
      if to < i && AtMost(entries[i].key, max) {
        DueDownwards(entries[to].key, entries[i].key, max);
      }
    }
  }
}
