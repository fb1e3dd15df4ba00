/** Printed times read back: the calendar against day numbers, and each printed position
    against the second it was printed from. */
module TimestampFields {
  import opened Text
  import opened Timestamps

  // ----- the calendar -----

  /** The leap years before this one. */
  function LeapYearsBefore(year: nat): int
    requires year >= 1
  {
    (year - 1) / 4 - (year - 1) / 100 + (year - 1) / 400
  }

  /** The days of a common year before this month. */
  function DaysBefore(month: nat): nat
    requires 1 <= month <= 12
  {
    [0, 31, 59, 90, 120, 151, 181, 212, 243, 273, 304, 334][month - 1]
  }

  /** Days since the first of January 1970, in closed form. */
  function DayNumber(d: Date): int
    requires d.year >= 1 && 1 <= d.month <= 12
  {
    365 * (d.year - 1970) + LeapYearsBefore(d.year) - LeapYearsBefore(1970) + DaysBefore(d.month)
    + (if d.month > 2 then LeapYearsBefore(d.year + 1) - LeapYearsBefore(d.year) else 0) + d.day - 1
  }

  lemma Fourths(n: nat)
    requires n >= 1
    ensures n / 4 - (n - 1) / 4 == if n % 4 == 0 then 1 else 0
  {
  }

  lemma Hundredths(n: nat)
    requires n >= 1
    ensures n / 100 - (n - 1) / 100 == if n % 100 == 0 then 1 else 0
  {
  }

  lemma FourHundredths(n: nat)
    requires n >= 1
    ensures n / 400 - (n - 1) / 400 == if n % 400 == 0 then 1 else 0
  {
  }

  lemma MultiplesOfMultiples(n: nat)
    ensures n % 400 == 0 ==> n % 100 == 0
    ensures n % 100 == 0 ==> n % 4 == 0
  {
    if n % 400 == 0 {
      assert n == 100 * (4 * (n / 400));
    }
    if n % 100 == 0 {
      assert n == 4 * (25 * (n / 100));
    }
  }

  lemma LeapYears(year: nat)
    requires year >= 1
    ensures LeapYearsBefore(year + 1) - LeapYearsBefore(year) == if Leap(year) then 1 else 0
  {
    Fourths(year);
    Hundredths(year);
    FourHundredths(year);
    MultiplesOfMultiples(year);
  }

  lemma NextDayIsNext(d: Date)
    requires ValidDate(d) && d.year >= 1
    ensures DayNumber(NextDay(d)) == DayNumber(d) + 1
  {
    LeapYears(d.year);
  }

  /** The calendar date of a day has that day's number. */
  lemma {:induction false} DateOfDay(days: nat)
    ensures DateOf(days).year >= 1970 && DayNumber(DateOf(days)) == days
  {
    if days > 0 {
      DateOfDay(days - 1);
      NextDayIsNext(DateOf(days - 1));
    }
  }

  // ----- digits -----

  function Number(s: string): int {
    if s == "" then 0 else 10 * Number(s[..|s| - 1]) + (s[|s| - 1] as int - '0' as int)
  }

  lemma {:induction false} DigitsRead(n: nat, width: nat)
    requires n < Pow10(width)
    ensures Number(Digits(n, width)) == n
  {
    if width > 0 {
      DigitsRead(n / 10, width - 1);
      var s := Digits(n, width);
      assert s[..|s| - 1] == Digits(n / 10, width - 1) && s[|s| - 1] as int == '0' as int + n % 10;
    }
  }

  // ----- the printed text -----

  /** Dashes, colons and letters stand where RFC 3339 has them. */
  predicate Layout(t: string) {
    |t| == 20 && t[4] == '-' && t[7] == '-' && t[10] == 'T' && t[13] == ':' && t[16] == ':' && t[19] == 'Z'
  }

  /** Year, month, day, hour, minute and second by their positions. */
  function ReadDate(t: string): (int, int, int)
    requires |t| == 20
  {
    (Number(t[0..4]), Number(t[5..7]), Number(t[8..10]))
  }

  function ReadClock(t: string): (int, int, int)
    requires |t| == 20
  {
    (Number(t[11..13]), Number(t[14..16]), Number(t[17..19]))
  }

  function Together(y: string, m: string, d: string, h: string, min: string, s: string): string {
    y + ("-" + (m + ("-" + (d + ("T" + (h + (":" + (min + (":" + (s + "Z"))))))))))
  }

  lemma TogetherParts(y: string, m: string, d: string, h: string, min: string, s: string)
    requires |y| == 4 && |m| == 2 && |d| == 2 && |h| == 2 && |min| == 2 && |s| == 2
    ensures var t := Together(y, m, d, h, min, s);
      && Layout(t) && t[0..4] == y && t[5..7] == m && t[8..10] == d
      && t[11..13] == h && t[14..16] == min && t[17..19] == s
  {
    var t := Together(y, m, d, h, min, s);
    assert t[17] == s[0] && t[18] == s[1];
    assert t[17..19] == [t[17], t[18]] && s == [s[0], s[1]];
  }

  lemma RenderOne(f: Field, rest: seq<Field>)
    ensures Render([f] + rest) == Digits(f.value, f.width) + (f.separator + Render(rest))
  {
    assert ([f] + rest)[1..] == rest;
  }

  lemma EndsWithZ(d: string, sep: string, rest: string)
    ensures (d + (sep + rest)) + "Z" == d + (sep + (rest + "Z"))
  {
  }

  lemma SixFields(a: Field, b: Field, c: Field, d: Field, e: Field, f: Field)
    requires a.separator == "-" && b.separator == "-" && c.separator == "T" && d.separator == ":" && e.separator == ":"
    requires f.separator == ""
    ensures Render([a, b, c, d, e, f]) + "Z" == Together(
      Digits(a.value, a.width), Digits(b.value, b.width), Digits(c.value, c.width),
      Digits(d.value, d.width), Digits(e.value, e.width), Digits(f.value, f.width))
  {
    RenderOne(f, []);
    RenderOne(e, [f]);
    RenderOne(d, [e, f]);
    RenderOne(c, [d, e, f]);
    RenderOne(b, [c, d, e, f]);
    RenderOne(a, [b, c, d, e, f]);
    assert [f] + [] == [f] && [e] + [f] == [e, f] && [d] + [e, f] == [d, e, f] && [c] + [d, e, f] == [c, d, e, f];
    assert [b] + [c, d, e, f] == [b, c, d, e, f] && [a] + [b, c, d, e, f] == [a, b, c, d, e, f];
    EndsWithZ(Digits(a.value, a.width), "-", Render([b, c, d, e, f]));
    EndsWithZ(Digits(b.value, b.width), "-", Render([c, d, e, f]));
    EndsWithZ(Digits(c.value, c.width), "T", Render([d, e, f]));
    EndsWithZ(Digits(d.value, d.width), ":", Render([e, f]));
    EndsWithZ(Digits(e.value, e.width), ":", Render([f]));
    EndsWithZ(Digits(f.value, f.width), "", "");
  }

  lemma PrintedAs(second: nat)
    requires Printable(second)
    ensures var d, time := DateOf(second / 86400), second % 86400;
      Rfc3339(second) == Together(Digits(d.year, 4), Digits(d.month, 2), Digits(d.day, 2),
        Digits(time / 3600, 2), Digits(time % 3600 / 60, 2), Digits(time % 60, 2))
  {
    var d, time := DateOf(second / 86400), second % 86400;
    SixFields(Field(d.year, 4, "-"), Field(d.month, 2, "-"), Field(d.day, 2, "T"),
      Field(time / 3600, 2, ":"), Field(time % 3600 / 60, 2, ":"), Field(time % 60, 2, ""));
  }

  lemma TwoDigits(n: nat)
    requires n < 100
    ensures Number(Digits(n, 2)) == n
  {
    assert Pow10(1) == 10 && Pow10(2) == 100;
    DigitsRead(n, 2);
  }

  lemma FourDigits(n: nat)
    requires n < 10000
    ensures Number(Digits(n, 4)) == n
  {
    assert Pow10(1) == 10 && Pow10(2) == 100 && Pow10(3) == 1000 && Pow10(4) == 10000;
    DigitsRead(n, 4);
  }

  lemma ReadTogether(y: string, m: string, d: string, h: string, min: string, s: string)
    requires |y| == 4 && |m| == 2 && |d| == 2 && |h| == 2 && |min| == 2 && |s| == 2
    ensures var t := Together(y, m, d, h, min, s);
      && Layout(t) && ReadDate(t) == (Number(y), Number(m), Number(d))
      && ReadClock(t) == (Number(h), Number(min), Number(s))
  {
    TogetherParts(y, m, d, h, min, s);
  }

  lemma ReadFields(second: nat)
    requires Printable(second)
    ensures var t, d, time := Rfc3339(second), DateOf(second / 86400), second % 86400;
      && Layout(t) && ReadDate(t) == (d.year as int, d.month as int, d.day as int)
      && ReadClock(t) == (time / 3600, time % 3600 / 60, time % 60)
  {
    var d, time := DateOf(second / 86400), second % 86400;
    var h, min, s := time / 3600, time % 3600 / 60, time % 60;
    PrintedAs(second);
    ReadTogether(Digits(d.year, 4), Digits(d.month, 2), Digits(d.day, 2), Digits(h, 2), Digits(min, 2), Digits(s, 2));
    FourDigits(d.year);
    TwoDigits(d.month);
    TwoDigits(d.day);
    TwoDigits(h);
    TwoDigits(min);
    TwoDigits(s);
  }

  lemma ClockAdds(time: nat)
    requires time < 86400
    ensures time / 3600 < 24 && time % 3600 / 60 < 60 && time % 60 < 60
    ensures time == 3600 * (time / 3600) + 60 * (time % 3600 / 60) + time % 60
  {
  }

  /** A printed time has its fields where the standard puts them, and reads back as the second
      it was printed from. */
  lemma ReadsBack(second: nat)
    requires Printable(second)
    ensures var t := Rfc3339(second);
      && Layout(t)
      && var (year, month, day) := ReadDate(t);
         var (hour, minute, sec) := ReadClock(t);
         && year >= 1 && 1 <= month <= 12 && 1 <= day <= 31 && 0 <= hour < 24 && 0 <= minute < 60 && 0 <= sec < 60
         && second == 86400 * DayNumber(Date(year, month, day)) + 3600 * hour + 60 * minute + sec
  {
    ReadFields(second);
    DateOfDay(second / 86400);
    ClockAdds(second % 86400);
    assert second == 86400 * (second / 86400) + second % 86400;
  }

  /** With a fraction of a second, the text is the same with the fraction before its last
      letter. */
  lemma FractionStands(t: Instant)
    ensures Rfc3339(t.second) == SecondText(t.second) + "Z"
    ensures Rfc3339Nano(t) == SecondText(t.second) + Fraction(t.nanos) + "Z"
  {
    var p, f := SecondText(t.second), Fraction(t.nanos);
    assert p + (f + "Z") == p + f + "Z";
  }
}
