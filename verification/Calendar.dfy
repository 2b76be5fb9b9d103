/** Dates and naive UTC date-times as the values `isoformat()` writes and `fromisoformat()` reads back. */
module Calendar {
  import opened Prelude
  import opened Decimals

  datatype Date = Date(year: nat, month: nat, day: nat)

  /** A date-time: microseconds are written only when they are not zero. */
  datatype DateTime = DateTime(date: Date, hour: nat, minute: nat, second: nat, micro: nat)

  function DaysInMonth(year: nat, month: nat): nat {
    if month == 2 then (if year % 4 == 0 && (year % 100 != 0 || year % 400 == 0) then 29 else 28)
    else if month == 4 || month == 6 || month == 9 || month == 11 then 30
    else 31
  }

  /** The months of the Gregorian calendar. */
  lemma MonthLengths(year: nat, month: nat)
    requires 1 <= month <= 12
    ensures DaysInMonth(year, month) == 31 <==> month in {1, 3, 5, 7, 8, 10, 12}
    ensures DaysInMonth(year, month) == 30 <==> month in {4, 6, 9, 11}
    ensures month == 2 ==> DaysInMonth(year, 2) == 28 + if (year % 4 == 0 && year % 100 != 0) || year % 400 == 0 then 1 else 0
  {
  }

  predicate ValidDate(d: Date) {
    1 <= d.year <= 9999 && 1 <= d.month <= 12 && 1 <= d.day <= DaysInMonth(d.year, d.month)
  }

  predicate ValidDateTime(t: DateTime) {
    ValidDate(t.date) && t.hour < 24 && t.minute < 60 && t.second < 60 && t.micro < 1_000_000
  }

  /** The date-times that exist. */
  type Instant = t: DateTime | ValidDateTime(t) witness DateTime(Date(1, 1, 1), 0, 0, 0, 0)

  function DateText(d: Date): (s: string)
    ensures |s| == 10
  {
    Padded(d.year, 4) + "-" + Padded(d.month, 2) + "-" + Padded(d.day, 2)
  }

  function ParseDate(s: string): Option<Date> {
    if |s| == 10 && s[4] == '-' && s[7] == '-' && AllDigits(s[..4]) && AllDigits(s[5..7]) && AllDigits(s[8..]) then
      var d := Date(Parse(s[..4]), Parse(s[5..7]), Parse(s[8..]));
      if ValidDate(d) then Some(d) else None
    else None
  }

  function DateTimeText(t: DateTime): string {
    DateText(t.date) + "T" + Padded(t.hour, 2) + ":" + Padded(t.minute, 2) + ":" + Padded(t.second, 2)
    + if t.micro == 0 then "" else "." + Padded(t.micro, 6)
  }

  function ParseDateTime(s: string): Option<DateTime> {
    if (|s| == 19 || (|s| == 26 && s[19] == '.' && AllDigits(s[20..])))
       && s[10] == 'T' && s[13] == ':' && s[16] == ':'
       && AllDigits(s[11..13]) && AllDigits(s[14..16]) && AllDigits(s[17..19])
    then
      var d := ParseDate(s[..10]);
      if d.None? then None else
        var micro := if |s| == 19 then 0 else Parse(s[20..]);
        var t := DateTime(d.value, Parse(s[11..13]), Parse(s[14..16]), Parse(s[17..19]), micro);
        if ValidDateTime(t) then Some(t) else None
    else None
  }

  lemma Width()
    ensures Pow10(2) == 100 && Pow10(4) == 10_000 && Pow10(6) == 1_000_000
  {
    assert Pow10(1) == 10 && Pow10(3) == 1000 && Pow10(5) == 100_000;
  }

  lemma DateRoundTrip(d: Date)
    requires ValidDate(d)
    ensures ParseDate(DateText(d)) == Some(d)
  {
    Width();
    PaddedRoundTrip(d.year, 4);
    PaddedRoundTrip(d.month, 2);
    PaddedRoundTrip(d.day, 2);
    var s := DateText(d);
    assert s[..4] == Padded(d.year, 4) && s[5..7] == Padded(d.month, 2) && s[8..] == Padded(d.day, 2);
  }

  lemma Fields(s: string, date: string, h: string, m: string, sec: string, frac: string)
    requires |date| == 10 && |h| == 2 && |m| == 2 && |sec| == 2
    requires s == date + "T" + h + ":" + m + ":" + sec + frac
    ensures |s| == 19 + |frac| && s[10] == 'T' && s[13] == ':' && s[16] == ':'
    ensures s[..10] == date && s[11..13] == h && s[14..16] == m && s[17..19] == sec && s[19..] == frac
  {
    assert s == date + ("T" + h + ":" + m + ":" + sec + frac);
    assert s == (date + "T" + h) + (":" + m + ":" + sec + frac);
    assert s == (date + "T" + h + ":" + m) + (":" + sec + frac);
    assert s == (date + "T" + h + ":" + m + ":" + sec) + frac;
  }

  lemma DateTimeRoundTrip(t: DateTime)
    requires ValidDateTime(t)
    ensures ParseDateTime(DateTimeText(t)) == Some(t)
  {
    Width();
    DateRoundTrip(t.date);
    PaddedRoundTrip(t.hour, 2);
    PaddedRoundTrip(t.minute, 2);
    PaddedRoundTrip(t.second, 2);
    PaddedRoundTrip(t.micro, 6);
    var s := DateTimeText(t);
    var frac := if t.micro == 0 then "" else "." + Padded(t.micro, 6);
    Fields(s, DateText(t.date), Padded(t.hour, 2), Padded(t.minute, 2), Padded(t.second, 2), frac);
    assert t.micro != 0 ==> s[19] == '.' && s[20..] == Padded(t.micro, 6) by {
      if t.micro != 0 { assert s[19] == s[19..][0] && s[20..] == s[19..][1..]; }
    }
  }

  /** Dates in calendar order, with room to spare. */
  function DayNumber(d: Date): nat {
    (d.year * 13 + d.month) * 32 + d.day
  }

  /** Date-times in order, in the same way. */
  function Stamp(t: DateTime): nat {
    (((DayNumber(t.date) * 24 + t.hour) * 60 + t.minute) * 60 + t.second) * 1_000_000 + t.micro
  }

  lemma {:induction false} Times(a: nat, b: nat, width: nat)
    requires a <= b
    ensures a * width <= b * width
  {
    if a < b { Times(a, b - 1, width); }
  }

  lemma Carry(q: nat, d: nat, q': nat, width: nat)
    requires d < width && q < q'
    ensures q * width + d < q' * width
  {
    Times(q + 1, q', width);
    assert (q + 1) * width == q * width + width;
  }

  /** A place holds its digit: the number before it and the digit can be read back. */
  lemma OnePlace(q: nat, d: nat, q': nat, d': nat, width: nat)
    requires d < width && d' < width && q * width + d == q' * width + d'
    ensures q == q' && d == d'
  {
    if q < q' { Carry(q, d, q', width); }
    if q' < q { Carry(q', d', q, width); }
  }

  /** A number in two places: the higher place decides, then the lower one. */
  lemma PlaceOrder(q: nat, d: nat, q': nat, d': nat, width: nat)
    requires d < width && d' < width
    ensures q * width + d < q' * width + d' <==> q < q' || (q == q' && d < d')
  {
    if q < q' { Carry(q, d, q', width); }
    if q' < q { Carry(q', d', q, width); }
  }

  /** One date is before another: by year, then month, then day. */
  predicate DateBefore(a: Date, b: Date) {
    || a.year < b.year
    || (a.year == b.year && (a.month < b.month || (a.month == b.month && a.day < b.day)))
  }

  lemma DayNumberOrder(a: Date, b: Date)
    requires ValidDate(a) && ValidDate(b)
    ensures DayNumber(a) < DayNumber(b) <==> DateBefore(a, b)
  {
    PlaceOrder(a.year * 13 + a.month, a.day, b.year * 13 + b.month, b.day, 32);
    PlaceOrder(a.year, a.month, b.year, b.month, 13);
    if a.year * 13 + a.month == b.year * 13 + b.month { OnePlace(a.year, a.month, b.year, b.month, 13); }
  }

  /** The time of day, down to the microsecond. */
  function TimeOfDay(t: DateTime): nat {
    ((t.hour * 60 + t.minute) * 60 + t.second) * 1_000_000 + t.micro
  }

  /** Stamps are in the order of time: by date, then by time of day. */
  lemma StampOrder(a: DateTime, b: DateTime)
    requires ValidDateTime(a) && ValidDateTime(b)
    ensures Stamp(a) < Stamp(b) <==>
      DateBefore(a.date, b.date) || (a.date == b.date && TimeOfDay(a) < TimeOfDay(b))
  {
    var day := 86_400_000_000;
    assert Stamp(a) == DayNumber(a.date) * day + TimeOfDay(a) && Stamp(b) == DayNumber(b.date) * day + TimeOfDay(b);
    PlaceOrder(DayNumber(a.date), TimeOfDay(a), DayNumber(b.date), TimeOfDay(b), day);
    DayNumberOrder(a.date, b.date);
    if DayNumber(a.date) == DayNumber(b.date) { DayNumberInjective(a.date, b.date); }
  }

  lemma DayNumberInjective(a: Date, b: Date)
    requires ValidDate(a) && ValidDate(b) && DayNumber(a) == DayNumber(b)
    ensures a == b
  {
    OnePlace(a.year * 13 + a.month, a.day, b.year * 13 + b.month, b.day, 32);
    OnePlace(a.year, a.month, b.year, b.month, 13);
  }

  lemma StampInjective(a: DateTime, b: DateTime)
    requires ValidDateTime(a) && ValidDateTime(b) && Stamp(a) == Stamp(b)
    ensures a == b
  {
    var hour, hour' := DayNumber(a.date) * 24 + a.hour, DayNumber(b.date) * 24 + b.hour;
    var minute, minute' := hour * 60 + a.minute, hour' * 60 + b.minute;
    var second, second' := minute * 60 + a.second, minute' * 60 + b.second;
    OnePlace(second, a.micro, second', b.micro, 1_000_000);
    OnePlace(minute, a.second, minute', b.second, 60);
    OnePlace(hour, a.minute, hour', b.minute, 60);
    OnePlace(DayNumber(a.date), a.hour, DayNumber(b.date), b.hour, 24);
    DayNumberInjective(a.date, b.date);
  }
}
