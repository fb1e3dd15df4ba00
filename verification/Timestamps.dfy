/** The timestamps the queue stores and compares as text: RFC3339 for lease
    deadlines, RFC3339Nano (trailing zeros dropped) for everything else. */
module Timestamps {
  import opened Text

  // ----- calendar -----

  datatype Date = Date(year: nat, month: nat, day: nat)

  predicate Leap(year: nat) {
    year % 4 == 0 && (year % 100 != 0 || year % 400 == 0)
  }

  function DaysIn(year: nat, month: nat): nat {
    if month == 2 then (if Leap(year) then 29 else 28)
    else if month in {4, 6, 9, 11} then 30
    else 31
  }

  predicate ValidDate(d: Date) {
    1 <= d.month <= 12 && 1 <= d.day <= DaysIn(d.year, d.month)
  }

  function NextDay(d: Date): Date {
    if d.day < DaysIn(d.year, d.month) then d.(day := d.day + 1)
    else if d.month < 12 then Date(d.year, d.month + 1, 1)
    else Date(d.year + 1, 1, 1)
  }

  /** The civil date `days` days after the Unix epoch. */
  function DateOf(days: nat): (d: Date)
    ensures ValidDate(d)
  {
    if days == 0 then Date(1970, 1, 1) else NextDay(DateOf(days - 1))
  }

  predicate Earlier(a: Date, b: Date) {
    a.year < b.year || (a.year == b.year && (a.month < b.month || (a.month == b.month && a.day < b.day)))
  }

  lemma {:induction false} DatesIncrease(a: nat, b: nat)
    requires a < b
    ensures Earlier(DateOf(a), DateOf(b))
    decreases b
  {
    if a < b - 1 {
      DatesIncrease(a, b - 1);
    }
  }

  // ----- fixed-width fields -----

  function Pow10(width: nat): nat {
    if width == 0 then 1 else 10 * Pow10(width - 1)
  }

  /** `n` in decimal, zero-padded to `width` digits. */
  function Digits(n: nat, width: nat): (s: string)
    ensures |s| == width
    ensures forall i :: 0 <= i < |s| ==> '0' <= s[i] <= '9'
  {
    if width == 0 then "" else Digits(n / 10, width - 1) + [('0' as int + n % 10) as char]
  }

  lemma {:induction false} DigitsIncrease(n: nat, m: nat, width: nat)
    requires n < m < Pow10(width)
    ensures Less(Digits(n, width), Digits(m, width))
    decreases width
  {
    if width > 0 {
      var p, q := Digits(n / 10, width - 1), Digits(m / 10, width - 1);
      var x, y := [('0' as int + n % 10) as char], [('0' as int + m % 10) as char];
      if n / 10 < m / 10 {
        DigitsIncrease(n / 10, m / 10, width - 1);
        LessTotal(p, q);
        LessByPrefix(p, q, x, y);
      } else {
        LessPrefixed(p, x, y);
      }
    }
  }

  /** A field value, its width, and the text that follows it. */
  datatype Field = Field(value: nat, width: nat, separator: string)

  function Render(fields: seq<Field>): string {
    if fields == [] then "" else Digits(fields[0].value, fields[0].width) + (fields[0].separator + Render(fields[1..]))
  }

  predicate SameLayout(a: seq<Field>, b: seq<Field>) {
    && |a| == |b|
    && forall i :: 0 <= i < |a| ==>
      && a[i].width == b[i].width && a[i].separator == b[i].separator
      && a[i].value < Pow10(a[i].width) && b[i].value < Pow10(b[i].width)
  }

  predicate FieldsLess(a: seq<Field>, b: seq<Field>)
    requires |a| == |b|
  {
    a != [] && (a[0].value < b[0].value || (a[0].value == b[0].value && FieldsLess(a[1..], b[1..])))
  }

  /** Text order is field order. */
  lemma {:induction false} RenderIncreases(a: seq<Field>, b: seq<Field>)
    requires SameLayout(a, b) && FieldsLess(a, b)
    ensures Less(Render(a), Render(b)) && |Render(a)| == |Render(b)|
  {
    RenderWidth(a, b);
    var p, q := Digits(a[0].value, a[0].width), Digits(b[0].value, b[0].width);
    var x, y := a[0].separator + Render(a[1..]), b[0].separator + Render(b[1..]);
    assert Render(a) == p + x && Render(b) == q + y;
    if a[0].value < b[0].value {
      DigitsIncrease(a[0].value, b[0].value, a[0].width);
      LessTotal(p, q);
      LessByPrefix(p, q, x, y);
    } else {
      RenderIncreases(a[1..], b[1..]);
      LessPrefixed(a[0].separator, Render(a[1..]), Render(b[1..]));
      LessPrefixed(p, x, y);
    }
  }

  lemma {:induction false} RenderWidth(a: seq<Field>, b: seq<Field>)
    requires SameLayout(a, b)
    ensures |Render(a)| == |Render(b)|
  {
    if a != [] {
      RenderWidth(a[1..], b[1..]);
    }
  }

  // ----- seconds and instants -----

  /** Years are padded to four digits and may have more. */
  function YearWidth(year: nat): nat {
    if year < 10000 then 4 else 1 + YearWidth(year / 10)
  }

  /** RFC 3339 has four-digit years. */
  predicate Printable(second: nat) {
    DateOf(second / 86400).year <= 9999
  }

  function SecondFields(second: nat): seq<Field> {
    var d := DateOf(second / 86400);
    var time := second % 86400;
    [Field(d.year, YearWidth(d.year), "-"), Field(d.month, 2, "-"), Field(d.day, 2, "T"),
     Field(time / 3600, 2, ":"), Field(time % 3600 / 60, 2, ":"), Field(time % 60, 2, "")]
  }

  function SecondText(second: nat): string {
    Render(SecondFields(second))
  }

  lemma SecondLayout(a: nat, b: nat)
    requires Printable(a) && Printable(b)
    ensures SameLayout(SecondFields(a), SecondFields(b))
  {
    assert Pow10(2) == 100 && Pow10(4) == 10000 by {
      assert Pow10(1) == 10 && Pow10(3) == 10 * Pow10(2);
    }
  }

  lemma ClockIncreases(a: nat, b: nat)
    requires a < b < 86400
    ensures
      || a / 3600 < b / 3600
      || (a / 3600 == b / 3600
          && (a % 3600 / 60 < b % 3600 / 60 || (a % 3600 / 60 == b % 3600 / 60 && a % 60 < b % 60)))
  {
  }

  lemma SecondsIncrease(a: nat, b: nat)
    requires Printable(a) && Printable(b) && a < b
    ensures Less(SecondText(a), SecondText(b)) && |SecondText(a)| == |SecondText(b)|
  {
    var x, y := SecondFields(a), SecondFields(b);
    SecondLayout(a, b);
    if a / 86400 < b / 86400 {
      DatesIncrease(a / 86400, b / 86400);
      assert x[1..][1..] == x[2..] && y[1..][1..] == y[2..];
    } else {
      ClockIncreases(a % 86400, b % 86400);
      assert x[1..][1..] == x[2..] && y[1..][1..] == y[2..];
      assert x[2..][1..] == x[3..] && y[2..][1..] == y[3..];
      assert x[3..][1..] == x[4..] && y[3..][1..] == y[4..];
      assert x[4..][1..] == x[5..] && y[4..][1..] == y[5..];
      assert FieldsLess(x[3..], y[3..]);
      assert FieldsLess(x[2..], y[2..]);
      assert FieldsLess(x[1..], y[1..]);
    }
    RenderIncreases(x, y);
  }

  datatype Instant = Instant(second: nat, nanos: nat)

  const NANOS: nat := 1_000_000_000

  predicate ValidInstant(t: Instant) {
    t.nanos < NANOS && Printable(t.second)
  }

  function Nanoseconds(t: Instant): nat {
    t.second * NANOS + t.nanos
  }

  function DropZeros(s: string): string {
    if s != "" && s[|s| - 1] == '0' then DropZeros(s[..|s| - 1]) else s
  }

  /** The ".999999999" layout element. */
  function Fraction(nanos: nat): string {
    if nanos == 0 then "" else "." + DropZeros(Digits(nanos, 9))
  }

  /** time.RFC3339, in UTC. */
  function Rfc3339(second: nat): string {
    SecondText(second) + "Z"
  }

  /** time.RFC3339Nano, in UTC. */
  function Rfc3339Nano(t: Instant): string {
    SecondText(t.second) + (Fraction(t.nanos) + "Z")
  }

  lemma {:induction false} DropZerosShape(s: string)
    ensures DropZeros(s) <= s
    ensures forall i :: |DropZeros(s)| <= i < |s| ==> s[i] == '0'
  {
    if s != "" && s[|s| - 1] == '0' {
      DropZerosShape(s[..|s| - 1]);
    }
  }

  /** A deadline printed without a fraction sorts at or before a time printed with
      one exactly when its second is earlier, or is the same and the fraction is zero. */
  lemma DeadlineOrder(deadline: nat, t: Instant)
    requires Printable(deadline) && ValidInstant(t)
    ensures AtMost(Rfc3339(deadline), Rfc3339Nano(t)) <==> deadline < t.second || (deadline == t.second && t.nanos == 0)
  {
    var p, q := SecondText(deadline), SecondText(t.second);
    var f := Fraction(t.nanos) + "Z";
    if deadline == t.second {
      LessPrefixed(p, f, "Z");
      LessTotal("Z", "Z");
      if t.nanos != 0 {
        assert f[0] == '.';
      } else {
        assert f == "Z";
      }
    } else {
      if deadline < t.second {
        SecondsIncrease(deadline, t.second);
      } else {
        SecondsIncrease(t.second, deadline);
      }
      LessTotal(p, q);
      LessByPrefix(q, p, f, "Z");
    }
  }

  /** A time in an earlier second sorts first, whatever the fractions. */
  lemma EarlierSecondFirst(t: Instant, u: Instant)
    requires ValidInstant(t) && ValidInstant(u) && t.second < u.second
    ensures Less(Rfc3339Nano(t), Rfc3339Nano(u))
  {
    SecondsIncrease(t.second, u.second);
    LessTotal(SecondText(t.second), SecondText(u.second));
    LessByPrefix(SecondText(t.second), SecondText(u.second), Fraction(t.nanos) + "Z", Fraction(u.nanos) + "Z");
  }

  lemma {:induction false} FirstDifference(a: string, b: string) returns (i: nat)
    requires |a| == |b| && Less(a, b)
    ensures i < |a| && a[..i] == b[..i] && a[i] < b[i]
  {
    if a[0] != b[0] {
      i := 0;
    } else {
      var j := FirstDifference(a[1..], b[1..]);
      i := j + 1;
      assert a[..i] == [a[0]] + a[1..][..j] && b[..i] == [b[0]] + b[1..][..j];
    }
  }

  lemma BeginningSortsAfter(f: string, g: string)
    requires f <= g && |f| < |g| && g[|f|] < 'Z'
    ensures Less(g + "Z", f + "Z")
  {
    var rest := g[|f|..] + "Z";
    assert g + "Z" == f + rest;
    LessPrefixed(f, rest, "Z");
  }

  lemma DifferenceSorts(f: string, g: string, i: nat)
    requires i < |f| && i < |g| && f[..i] == g[..i] && f[i] < g[i]
    ensures Less(f + "Z", g + "Z")
  {
    var x, y := f[i..] + "Z", g[i..] + "Z";
    assert f + "Z" == f[..i] + x && g + "Z" == f[..i] + y;
    LessPrefixed(f[..i], x, y);
  }

  /** Two times in one second sort in order exactly when the earlier fraction, as
      printed, is not the beginning of the later one: "…00.1Z" sorts after "…00.15Z". */
  lemma SameSecondOrder(t: Instant, u: Instant)
    requires ValidInstant(t) && ValidInstant(u) && t.second == u.second && t.nanos < u.nanos
    ensures Less(Rfc3339Nano(t), Rfc3339Nano(u)) <==> !(Fraction(t.nanos) <= Fraction(u.nanos))
  {
    var f, g := Fraction(t.nanos), Fraction(u.nanos);
    LessPrefixed(SecondText(t.second), f + "Z", g + "Z");
    FractionsDiffer(t.nanos, u.nanos);
    if f <= g {
      FractionChars(u.nanos);
      BeginningSortsAfter(f, g);
      LessTotal(f + "Z", g + "Z");
    } else {
      var i :| 0 <= i < |f| && i < |g| && f[..i] == g[..i] && f[i] < g[i];
      DifferenceSorts(f, g, i);
    }
  }

  lemma FractionChars(n: nat)
    ensures forall i :: 0 <= i < |Fraction(n)| ==> Fraction(n)[i] < 'Z'
  {
    DropZerosShape(Digits(n, 9));
  }

  lemma NineDigits()
    ensures Pow10(9) == NANOS
  {
    assert Pow10(1) == 10 && Pow10(2) == 100;
    assert Pow10(3) == 1000 && Pow10(4) == 10_000;
    assert Pow10(5) == 100_000 && Pow10(6) == 1_000_000;
    assert Pow10(7) == 10_000_000 && Pow10(8) == 100_000_000;
  }

  lemma DottedDiffer(f: string, g: string, i: nat)
    requires i < |f| && i < |g| && f[..i] == g[..i] && f[i] < g[i]
    ensures ("." + f)[..i + 1] == ("." + g)[..i + 1] && ("." + f)[i + 1] < ("." + g)[i + 1]
  {
    assert ("." + f)[..i + 1] == "." + f[..i] && ("." + g)[..i + 1] == "." + g[..i];
  }

  lemma DottedPrefix(f: string, g: string)
    requires f <= g
    ensures "." + f <= "." + g
  {
  }

  lemma FractionsDiffer(n: nat, m: nat)
    requires n < m < NANOS
    ensures Fraction(n) != Fraction(m)
    ensures Fraction(n) <= Fraction(m)
      || exists i ::
           && 0 <= i < |Fraction(n)| && i < |Fraction(m)| && Fraction(n)[..i] == Fraction(m)[..i]
           && Fraction(n)[i] < Fraction(m)[i]
  {
    if n > 0 {
      var a, b := Digits(n, 9), Digits(m, 9);
      NineDigits();
      DigitsIncrease(n, m, 9);
      var i := FirstDifference(a, b);
      var f, g := DropZeros(a), DropZeros(b);
      DropZerosShape(a);
      DropZerosShape(b);
      assert i < |g| && g[i] == b[i];
      if i < |f| {
        assert f[..i] == a[..i] == b[..i] == g[..i] && f[i] == a[i];
        DottedDiffer(f, g, i);
      } else {
        assert f == a[..i][..|f|] == b[..i][..|f|] == g[..|f|];
        DottedPrefix(f, g);
      }
    }
  }

  lemma ZeroDropped(m: nat, n: nat, width: nat)
    requires n == 10 * m
    ensures DropZeros(Digits(n, width + 1)) == DropZeros(Digits(m, width))
  {
    assert n / 10 == m && n % 10 == 0;
    assert Digits(n, width + 1) == Digits(m, width) + ['0'];
  }

  lemma OneTenth()
    ensures Fraction(100_000_000) == ".1"
  {
    ZeroDropped(1, 10, 1);
    ZeroDropped(10, 100, 2);
    ZeroDropped(100, 1000, 3);
    ZeroDropped(1000, 10_000, 4);
    ZeroDropped(10_000, 100_000, 5);
    ZeroDropped(100_000, 1_000_000, 6);
    ZeroDropped(1_000_000, 10_000_000, 7);
    ZeroDropped(10_000_000, 100_000_000, 8);
    assert Digits(1, 1) == "1" && DropZeros("1") == "1";
  }

  lemma FifteenHundredths()
    ensures Fraction(150_000_000) == ".15"
  {
    ZeroDropped(15, 150, 2);
    ZeroDropped(150, 1500, 3);
    ZeroDropped(1500, 15_000, 4);
    ZeroDropped(15_000, 150_000, 5);
    ZeroDropped(150_000, 1_500_000, 6);
    ZeroDropped(1_500_000, 15_000_000, 7);
    ZeroDropped(15_000_000, 150_000_000, 8);
    assert Digits(1, 1) == "1";
    assert Digits(15, 2) == "15" && DropZeros("15") == "15";
  }

  /** For one: in any second, .15 sorts before .1. */
  lemma TenthSortsLate(second: nat)
    requires Printable(second)
    ensures Less(Rfc3339Nano(Instant(second, 150_000_000)), Rfc3339Nano(Instant(second, 100_000_000)))
  {
    var t, u := Instant(second, 100_000_000), Instant(second, 150_000_000);
    OneTenth();
    FifteenHundredths();
    assert ".1" <= ".15";
    SameSecondOrder(t, u);
    LessPrefixed(SecondText(second), ".15Z", ".1Z");
    assert ".15" + "Z" == ".15Z" && ".1" + "Z" == ".1Z";
    BeginningSortsAfter(".1", ".15");
  }
}
