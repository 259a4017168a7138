/** The text form of instants, RFC 3339 section 5.6 with whole seconds and a Z, as the table stores and
    compares it: the comparison of texts agrees with the fractional clock. */
module Timestamps {
  import opened Digits
  import opened Strings

  /** A UTC date and time with microseconds. */
  datatype DateTime = DateTime(year: nat, month: nat, day: nat, hour: nat, minute: nat, second: nat, micro: nat)

  predicate Leap(year: nat) {
    year % 4 == 0 && (year % 100 != 0 || year % 400 == 0)
  }

  function DaysIn(year: nat, month: nat): nat {
    if month == 2 then (if Leap(year) then 29 else 28)
    else if month in {4, 6, 9, 11} then 30
    else 31
  }

  predicate Valid(t: DateTime) {
    && 1 <= t.year <= 9999 && 1 <= t.month <= 12 && 1 <= t.day <= DaysIn(t.year, t.month)
    && t.hour < 24 && t.minute < 60 && t.second < 60 && t.micro < 1_000_000
  }

  /** The months of the Gregorian calendar. */
  lemma MonthLengths(year: nat, month: nat)
    ensures month in {1, 3, 5, 7, 8, 10, 12} ==> DaysIn(year, month) == 31
    ensures month in {4, 6, 9, 11} ==> DaysIn(year, month) == 30
    ensures month == 2 ==> DaysIn(year, month) == if year % 400 == 0 || (year % 4 == 0 && year % 100 != 0) then 29 else 28
  {
    Quarters(year);
  }

  function DaysBeforeYear(year: nat): int
    requires year >= 1
  {
    var y := year - 1;
    y * 365 + y / 4 - y / 100 + y / 400
  }

  function DaysBeforeMonth(year: nat, month: nat): nat
    requires 1 <= month <= 13
  {
    if month == 1 then 0 else DaysBeforeMonth(year, month - 1) + DaysIn(year, month - 1)
  }

  /** Days, and then whole seconds and microseconds, since the first of January of year 1. */
  function Day(t: DateTime): int
    requires Valid(t)
  {
    DaysBeforeYear(t.year) + DaysBeforeMonth(t.year, t.month) + t.day
  }

  function WholeSeconds(t: DateTime): int
    requires Valid(t)
  {
    ((Day(t) * 24 + t.hour) * 60 + t.minute) * 60 + t.second
  }

  function Micros(t: DateTime): int
    requires Valid(t)
  {
    WholeSeconds(t) * 1_000_000 + t.micro
  }

  function Two(n: nat): string
    requires n < 100
  {
    [DigitChar(n / 10), DigitChar(n % 10)]
  }

  function Four(n: nat): string
    requires n < 10000
  {
    Two(n / 100) + Two(n % 100)
  }

  /** The stored text: fractions of a second are dropped. */
  function Timestamp(t: DateTime): string
    requires Valid(t)
  {
    Four(t.year) + ("-" + (Two(t.month) + ("-" + (Two(t.day) + ("T" + (Two(t.hour) + (":" + (Two(t.minute) + (":" + (Two(t.second) + "Z"))))))))))
  }

  lemma TwoOrder(m: nat, n: nat)
    requires m < 100 && n < 100
    ensures Before(Two(m), Two(n)) <==> m < n
    ensures Two(m) == Two(n) <==> m == n
  {
    OneDigit(m / 10, n / 10);
    OneDigit(m % 10, n % 10);
    BeforeByParts([DigitChar(m / 10)], [DigitChar(n / 10)], [DigitChar(m % 10)], [DigitChar(n % 10)]);
    assert Two(m) == [DigitChar(m / 10)] + [DigitChar(m % 10)] && Two(n) == [DigitChar(n / 10)] + [DigitChar(n % 10)];
    assert m == m / 10 * 10 + m % 10 && n == n / 10 * 10 + n % 10;
    assert Two(m)[0] == DigitChar(m / 10) && Two(n)[0] == DigitChar(n / 10) && Two(m)[1] == DigitChar(m % 10) && Two(n)[1] == DigitChar(n % 10);
  }

  lemma OneDigit(m: nat, n: nat)
    requires m < 10 && n < 10
    ensures Before([DigitChar(m)], [DigitChar(n)]) <==> m < n
    ensures DigitChar(m) == DigitChar(n) <==> m == n
    ensures [DigitChar(m)] == [DigitChar(n)] <==> m == n
  {
    assert [DigitChar(m)][1..] == "" && [DigitChar(n)][1..] == "";
    assert [DigitChar(m)][0] == DigitChar(m) && [DigitChar(n)][0] == DigitChar(n);
    assert DigitChar(m) as nat == '0' as nat + m && DigitChar(n) as nat == '0' as nat + n;
  }

  lemma FourOrder(m: nat, n: nat)
    requires m < 10000 && n < 10000
    ensures Before(Four(m), Four(n)) <==> m < n
    ensures Four(m) == Four(n) <==> m == n
  {
    TwoOrder(m / 100, n / 100);
    TwoOrder(m % 100, n % 100);
    BeforeByParts(Two(m / 100), Two(n / 100), Two(m % 100), Two(n % 100));
    assert Four(m)[..2] == Two(m / 100) && Four(m)[2..] == Two(m % 100);
    assert Four(n)[..2] == Two(n / 100) && Four(n)[2..] == Two(n % 100);
  }

  /** One two-digit field and a separator in front of the rest. */
  lemma FieldOrder(m: nat, n: nat, separator: string, a: string, b: string)
    requires m < 100 && n < 100 && |separator| == 1
    ensures Before(separator + (Two(m) + a), separator + (Two(n) + b)) <==> m < n || (m == n && Before(a, b))
  {
    BeforeByParts(separator, separator, Two(m) + a, Two(n) + b);
    BeforeIsTotal(separator, separator);
    BeforeByParts(Two(m), Two(n), a, b);
    TwoOrder(m, n);
  }

  /** The order of the fields from the year down to the second. */
  predicate FieldsBefore(a: DateTime, b: DateTime) {
    a.year < b.year || (a.year == b.year && (a.month < b.month || (a.month == b.month && (a.day < b.day || (a.day == b.day
    && (a.hour < b.hour || (a.hour == b.hour && (a.minute < b.minute || (a.minute == b.minute && a.second < b.second)))))))))
  }

  lemma TextOrderIsFieldOrder(a: DateTime, b: DateTime)
    requires Valid(a) && Valid(b)
    ensures Before(Timestamp(a), Timestamp(b)) <==> FieldsBefore(a, b)
  {
    var as5, bs5 := "Z", "Z";
    var as4, bs4 := ":" + (Two(a.second) + as5), ":" + (Two(b.second) + bs5);
    var as3, bs3 := ":" + (Two(a.minute) + as4), ":" + (Two(b.minute) + bs4);
    var as2, bs2 := "T" + (Two(a.hour) + as3), "T" + (Two(b.hour) + bs3);
    var as1, bs1 := "-" + (Two(a.day) + as2), "-" + (Two(b.day) + bs2);
    var as0, bs0 := "-" + (Two(a.month) + as1), "-" + (Two(b.month) + bs1);
    BeforeIsTotal("Z", "Z");
    FieldOrder(a.second, b.second, ":", as5, bs5);
    FieldOrder(a.minute, b.minute, ":", as4, bs4);
    FieldOrder(a.hour, b.hour, "T", as3, bs3);
    FieldOrder(a.day, b.day, "-", as2, bs2);
    FieldOrder(a.month, b.month, "-", as1, bs1);
    BeforeByParts(Four(a.year), Four(b.year), as0, bs0);
    FourOrder(a.year, b.year);
  }

  lemma Quarters(year: nat)
    ensures year % 400 == 0 ==> year % 100 == 0
    ensures year % 100 == 0 ==> year % 4 == 0
  {
    if year % 400 == 0 { assert year == 100 * (4 * (year / 400)); }
    if year % 100 == 0 { assert year == 4 * (25 * (year / 100)); }
  }

  lemma YearLength(year: nat)
    requires year >= 1
    ensures DaysBeforeYear(year + 1) == DaysBeforeYear(year) + if Leap(year) then 366 else 365
  {
    var y := year - 1;
    Quarters(year);
    assert year / 4 == y / 4 + if year % 4 == 0 then 1 else 0;
    assert year / 100 == y / 100 + if year % 100 == 0 then 1 else 0;
    assert year / 400 == y / 400 + if year % 400 == 0 then 1 else 0;
  }

  lemma {:induction false} YearsInOrder(x: nat, y: nat)
    requires 1 <= x < y
    ensures DaysBeforeYear(x) + (if Leap(x) then 366 else 365) <= DaysBeforeYear(y)
    decreases y - x
  {
    YearLength(x);
    if x + 1 < y { YearsInOrder(x + 1, y); }
  }

  lemma {:induction false} MonthsInOrder(year: nat, m: nat, n: nat)
    requires 1 <= m < n <= 13
    ensures DaysBeforeMonth(year, m) + DaysIn(year, m) <= DaysBeforeMonth(year, n)
    decreases n - m
  {
    if m + 1 < n { MonthsInOrder(year, m, n - 1); }
  }

  lemma WholeYear(year: nat)
    ensures DaysBeforeMonth(year, 13) == if Leap(year) then 366 else 365
  {
    assert DaysBeforeMonth(year, 2) == 31;
    assert DaysBeforeMonth(year, 3) == 31 + DaysIn(year, 2);
    assert DaysBeforeMonth(year, 4) == 62 + DaysIn(year, 2);
    assert DaysBeforeMonth(year, 5) == 92 + DaysIn(year, 2);
    assert DaysBeforeMonth(year, 6) == 123 + DaysIn(year, 2);
    assert DaysBeforeMonth(year, 7) == 153 + DaysIn(year, 2);
    assert DaysBeforeMonth(year, 8) == 184 + DaysIn(year, 2);
    assert DaysBeforeMonth(year, 9) == 215 + DaysIn(year, 2);
    assert DaysBeforeMonth(year, 10) == 245 + DaysIn(year, 2);
    assert DaysBeforeMonth(year, 11) == 276 + DaysIn(year, 2);
    assert DaysBeforeMonth(year, 12) == 306 + DaysIn(year, 2);
  }

  lemma EarlierDay(a: DateTime, b: DateTime)
    requires Valid(a) && Valid(b)
    requires a.year < b.year || (a.year == b.year && (a.month < b.month || (a.month == b.month && a.day < b.day)))
    ensures Day(a) < Day(b)
  {
    if a.year < b.year {
      YearsInOrder(a.year, b.year);
      WholeYear(a.year);
      MonthsInOrder(a.year, a.month, 13);
    } else if a.month < b.month {
      MonthsInOrder(a.year, a.month, b.month);
    }
  }

  lemma FieldOrderIsChronological(a: DateTime, b: DateTime)
    requires Valid(a) && Valid(b) && FieldsBefore(a, b)
    ensures WholeSeconds(a) < WholeSeconds(b)
  {
    if a.year < b.year || (a.year == b.year && (a.month < b.month || (a.month == b.month && a.day < b.day))) {
      EarlierDay(a, b);
    }
  }

  /** The texts are ordered exactly as the whole seconds they denote. */
  lemma TextOrderIsChronological(a: DateTime, b: DateTime)
    requires Valid(a) && Valid(b)
    ensures Before(Timestamp(a), Timestamp(b)) <==> WholeSeconds(a) < WholeSeconds(b)
    ensures Timestamp(a) == Timestamp(b) <==> WholeSeconds(a) == WholeSeconds(b)
  {
    TextOrderIsFieldOrder(a, b);
    TextOrderIsFieldOrder(b, a);
    BeforeIsTotal(Timestamp(a), Timestamp(b));
    if FieldsBefore(a, b) {
      FieldOrderIsChronological(a, b);
    } else if FieldsBefore(b, a) {
      FieldOrderIsChronological(b, a);
    }
  }

  /** The expiry check of the table, on texts, agrees exactly with the fractional clock: a whole-second
      expiry is not after the text of `now` exactly when it is not after `now` itself. */
  lemma ExpiryCheckIsExact(expires: DateTime, now: DateTime)
    requires Valid(expires) && Valid(now) && expires.micro == 0
    ensures !Before(Timestamp(now), Timestamp(expires)) <==> Micros(expires) <= Micros(now)
  {
    TextOrderIsChronological(now, expires);
  }

  /** Reading a stored text back, by its fixed positions. */
  function Value(c: char): nat {
    if IsDigit(c) then DigitValue(c) else 0
  }

  function ParseTimestamp(s: string): DateTime
    requires |s| == 20
  {
    DateTime(Value(s[0]) * 1000 + Value(s[1]) * 100 + Value(s[2]) * 10 + Value(s[3]),
             Value(s[5]) * 10 + Value(s[6]), Value(s[8]) * 10 + Value(s[9]),
             Value(s[11]) * 10 + Value(s[12]), Value(s[14]) * 10 + Value(s[15]), Value(s[17]) * 10 + Value(s[18]), 0)
  }

  lemma ReadsBack(t: DateTime)
    requires Valid(t)
    ensures |Timestamp(t)| == 20 && ParseTimestamp(Timestamp(t)) == t.(micro := 0)
    ensures var s := Timestamp(t);
            s[4] == '-' && s[7] == '-' && s[10] == 'T' && s[13] == ':' && s[16] == ':' && s[19] == 'Z'
  {
    forall n: nat | n < 10 ensures Value(DigitChar(n)) == n {}
    var s := Timestamp(t);
    assert s[0] == DigitChar(t.year / 100 / 10) && s[1] == DigitChar(t.year / 100 % 10);
    assert s[2] == DigitChar(t.year % 100 / 10) && s[3] == DigitChar(t.year % 100 % 10);
    assert s[5] == DigitChar(t.month / 10) && s[6] == DigitChar(t.month % 10);
    assert s[8] == DigitChar(t.day / 10) && s[9] == DigitChar(t.day % 10);
    assert s[11] == DigitChar(t.hour / 10) && s[12] == DigitChar(t.hour % 10);
    assert s[14] == DigitChar(t.minute / 10) && s[15] == DigitChar(t.minute % 10);
    assert s[17] == DigitChar(t.second / 10) && s[18] == DigitChar(t.second % 10);
  }
}
