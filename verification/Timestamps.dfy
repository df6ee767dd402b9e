/** Days and timestamps as the audit log writes and the filter reads them, and their order as text. */
module Timestamps {
  import opened Common
  import opened Strconv

  datatype Day = Day(year: nat, month: nat, day: nat)

  datatype Stamp = Stamp(day: Day, hour: nat, minute: nat, second: nat)

  predicate IsLeap(year: nat) {
    year % 4 == 0 && (year % 100 != 0 || year % 400 == 0)
  }

  function DaysIn(month: nat, year: nat): nat {
    if month == 2 then (if IsLeap(year) then 29 else 28)
    else if month in {4, 6, 9, 11} then 30
    else 31
  }

  /** The Gregorian calendar as a table. */
  lemma CalendarTable(year: nat, month: nat)
    requires 1 <= month <= 12
    ensures var table := [31, 28, 31, 30, 31, 30, 31, 31, 30, 31, 30, 31];
      var leapDay := if month == 2 && (year % 400 == 0 || (year % 100 != 0 && year % 4 == 0)) then 1 else 0;
      DaysIn(month, year) == table[month - 1] + leapDay
  {
    assert year % 400 == 0 ==> year % 4 == 0;
  }

  predicate ValidDay(d: Day) {
    d.year <= 9999 && 1 <= d.month <= 12 && 1 <= d.day <= DaysIn(d.month, d.year)
  }

  predicate ValidStamp(t: Stamp) {
    ValidDay(t.day) && t.hour < 24 && t.minute < 60 && t.second < 60
  }

  function FormatDay(d: Day): (s: string)
    ensures |s| == 10
  {
    Padded(d.year, 4) + "-" + Padded(d.month, 2) + "-" + Padded(d.day, 2)
  }

  function Clock(hour: nat, minute: nat, second: nat): (s: string)
    ensures |s| == 10
  {
    "T" + Padded(hour, 2) + ":" + Padded(minute, 2) + ":" + Padded(second, 2) + "Z"
  }

  /** The layout 2006-01-02T15:04:05Z that the audit service writes. */
  function FormatStamp(t: Stamp): string {
    FormatDay(t.day) + Clock(t.hour, t.minute, t.second)
  }

  /** time.Parse with the layout 2006-01-02: fixed widths, a day the month has, nothing after it. */
  function ParseDay(s: string): Option<Day> {
    if |s| != 10 || !AllDigits(s[..4]) || s[4] != '-' || !AllDigits(s[5..7]) || s[7] != '-' || !AllDigits(s[8..])
    then None
    else
      var d := Day(Value(s[..4]), Value(s[5..7]), Value(s[8..]));
      if ValidDay(d) then Some(d) else None
  }

  lemma Pow10Small()
    ensures Pow10(2) == 100 && Pow10(4) == 10000
  {
    assert Pow10(1) == 10;
    assert Pow10(3) == 10 * Pow10(2);
  }

  /** A day that parses is spelt the one way it prints. */
  lemma ParsedDayPrintsBack(s: string)
    requires ParseDay(s).Some?
    ensures FormatDay(ParseDay(s).value) == s
  {
    ValuePadded(s[..4]);
    ValuePadded(s[5..7]);
    ValuePadded(s[8..]);
    assert s == s[..4] + "-" + s[5..7] + "-" + s[8..];
  }

  lemma FieldsOfDay(y: string, m: string, d: string)
    requires |y| == 4 && |m| == 2 && |d| == 2
    ensures var s := y + "-" + m + "-" + d;
      |s| == 10 && s[..4] == y && s[4] == '-' && s[5..7] == m && s[7] == '-' && s[8..] == d
  {
  }

  lemma PrintedDayParses(d: Day)
    requires ValidDay(d)
    ensures ParseDay(FormatDay(d)) == Some(d)
  {
    Pow10Small();
    PaddedValue(d.year, 4);
    PaddedValue(d.month, 2);
    PaddedValue(d.day, 2);
    var y, m, dd := Padded(d.year, 4), Padded(d.month, 2), Padded(d.day, 2);
    FieldsOfDay(y, m, dd);
  }

  // ---- order as text ------------------------------------------------------------------------------

  /** SQLite's BINARY collation. */
  predicate TextLe(a: string, b: string) {
    a == "" || (b != "" && (a[0] < b[0] || (a[0] == b[0] && TextLe(a[1..], b[1..]))))
  }

  /** The order of two texts is that of their beginnings, if these are as long and not the same. */
  lemma {:induction false} OrderByBeginning(a: string, b: string, x: string, y: string)
    requires |a| == |b|
    ensures TextLe(a + x, b + y) <==> if a == b then TextLe(x, y) else TextLe(a, b)
  {
    if a == "" {
      assert a + x == x && b + y == y;
    } else {
      assert (a + x)[1..] == a[1..] + x && (b + y)[1..] == b[1..] + y;
      assert a == b <==> a[0] == b[0] && a[1..] == b[1..];
      OrderByBeginning(a[1..], b[1..], x, y);
    }
  }

  lemma DigitOrder(n: nat, m: nat)
    requires n < 10 && m < 10
    ensures TextLe([DigitOf(n)], [DigitOf(m)]) <==> n <= m
  {
  }

  lemma {:induction false} PaddedOrder(n: nat, m: nat, width: nat)
    requires n < Pow10(width) && m < Pow10(width)
    ensures TextLe(Padded(n, width), Padded(m, width)) <==> n <= m
    ensures Padded(n, width) == Padded(m, width) <==> n == m
  {
    PaddedValue(n, width);
    PaddedValue(m, width);
    if width > 0 {
      PaddedOrder(n / 10, m / 10, width - 1);
      OrderByBeginning(Padded(n / 10, width - 1), Padded(m / 10, width - 1), [DigitOf(n % 10)], [DigitOf(m % 10)]);
      DigitOrder(n % 10, m % 10);
    }
  }

  /** A fixed-width field decides the order unless it is the same on both sides. */
  lemma FieldOrder(n: nat, m: nat, width: nat, x: string, y: string)
    requires n < Pow10(width) && m < Pow10(width)
    ensures TextLe(Padded(n, width) + x, Padded(m, width) + y) <==> if n == m then TextLe(x, y) else n <= m
  {
    PaddedOrder(n, m, width);
    OrderByBeginning(Padded(n, width), Padded(m, width), x, y);
  }

  predicate DayLe(d: Day, e: Day) {
    || d.year < e.year
    || (d.year == e.year && (d.month < e.month || (d.month == e.month && d.day <= e.day)))
  }

  lemma DayOrder(d: Day, e: Day, x: string, y: string)
    requires ValidDay(d) && ValidDay(e)
    ensures TextLe(FormatDay(d) + x, FormatDay(e) + y) <==> if d == e then TextLe(x, y) else DayLe(d, e)
  {
    Pow10Small();
    var dd, ed := Padded(d.day, 2) + x, Padded(e.day, 2) + y;
    var dm, em := Padded(d.month, 2) + ("-" + dd), Padded(e.month, 2) + ("-" + ed);
    FieldOrder(d.year, e.year, 4, "-" + dm, "-" + em);
    OrderByBeginning("-", "-", dm, em);
    FieldOrder(d.month, e.month, 2, "-" + dd, "-" + ed);
    OrderByBeginning("-", "-", dd, ed);
    FieldOrder(d.day, e.day, 2, x, y);
    DaySpelt(d, x);
    DaySpelt(e, y);
  }

  lemma DaySpelt(d: Day, x: string)
    ensures FormatDay(d) + x == Padded(d.year, 4) + ("-" + (Padded(d.month, 2) + ("-" + (Padded(d.day, 2) + x))))
  {
  }

  lemma ClockSpelt(h: nat, m: nat, s: nat)
    ensures Clock(h, m, s) == "T" + (Padded(h, 2) + (":" + (Padded(m, 2) + (":" + (Padded(s, 2) + "Z")))))
  {
  }

  lemma ClockOrder(h: nat, m: nat, s: nat, h': nat, m': nat, s': nat)
    requires h < 24 && m < 60 && s < 60 && h' < 24 && m' < 60 && s' < 60
    requires h <= h' && m <= m' && s <= s'
    ensures TextLe(Clock(h, m, s), Clock(h', m', s'))
  {
    Pow10Small();
    var sz, sz' := Padded(s, 2) + "Z", Padded(s', 2) + "Z";
    var mz, mz' := Padded(m, 2) + (":" + sz), Padded(m', 2) + (":" + sz');
    FieldOrder(s, s', 2, "Z", "Z");
    OrderByBeginning(":", ":", sz, sz');
    FieldOrder(m, m', 2, ":" + sz, ":" + sz');
    OrderByBeginning(":", ":", mz, mz');
    FieldOrder(h, h', 2, ":" + mz, ":" + mz');
    OrderByBeginning("T", "T", Padded(h, 2) + (":" + mz), Padded(h', 2) + (":" + mz'));
    ClockSpelt(h, m, s);
    ClockSpelt(h', m', s');
  }

  lemma TwoDigits(n: nat)
    requires n < 100
    ensures Padded(n, 2) == [DigitOf(n / 10), DigitOf(n % 10)]
  {
    var tens := n / 10;
    assert tens % 10 == tens;
    assert Padded(tens, 1) == Padded(tens / 10, 0) + [DigitOf(tens)] == [DigitOf(tens)];
  }

  lemma DayBoundsAsText()
    ensures Clock(0, 0, 0) == "T00:00:00Z" && Clock(23, 59, 59) == "T23:59:59Z"
  {
    TwoDigits(0);
    TwoDigits(23);
    TwoDigits(59);
  }

  /** Comparing stored timestamps with the bounds of a day compares days. */
  lemma DayBounds(d: Day, t: Stamp)
    requires ValidDay(d) && ValidStamp(t)
    ensures TextLe(FormatDay(d) + "T00:00:00Z", FormatStamp(t)) <==> DayLe(d, t.day)
    ensures TextLe(FormatStamp(t), FormatDay(d) + "T23:59:59Z") <==> DayLe(t.day, d)
  {
    DayBoundsAsText();
    DayOrder(d, t.day, Clock(0, 0, 0), Clock(t.hour, t.minute, t.second));
    DayOrder(t.day, d, Clock(t.hour, t.minute, t.second), Clock(23, 59, 59));
    ClockOrder(0, 0, 0, t.hour, t.minute, t.second);
    ClockOrder(t.hour, t.minute, t.second, 23, 59, 59);
  }
}
