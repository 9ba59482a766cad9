/** The UTC timestamps of RFC 3339 as the account list compares them: as texts. */
module Rfc3339 {
  import opened Text

  // ---------- the calendar ----------

  predicate IsLeap(year: nat) {
    year % 4 == 0 && (year % 100 != 0 || year % 400 == 0)
  }

  function YearLength(year: nat): nat { if IsLeap(year) then 366 else 365 }

  function MonthLength(year: nat, month: nat): nat
    requires 1 <= month <= 12
  {
    if month == 2 then (if IsLeap(year) then 29 else 28)
    else if month in {4, 6, 9, 11} then 30
    else 31
  }

  /** The calendar of every year: leap years are every fourth, but of the full centuries only every fourth. */
  lemma Calendar(year: nat, month: nat)
    requires 1 <= month <= 12
    ensures var february := if IsLeap(year) then 29 else 28;
      MonthLength(year, month) == [31, february, 31, 30, 31, 30, 31, 31, 30, 31, 30, 31][month - 1]
    ensures IsLeap(4 * year) <==> year % 25 != 0 || year % 100 == 0
    ensures year % 4 != 0 ==> !IsLeap(year)
  {
    Remainders(4 * year, year / 25, 4 * (year % 25), year / 100, 4 * (year % 100));
  }

  lemma Remainders(n: nat, q: nat, r: nat, p: nat, t: nat)
    ensures n == 100 * q + r && r < 100 ==> n % 100 == r
    ensures n == 400 * p + t && t < 400 ==> n % 400 == t
  {
  }

  /** Days from 1 January of the year 0 to 1 January of the given year. */
  function DaysBeforeYear(year: nat): nat {
    if year == 0 then 0 else DaysBeforeYear(year - 1) + YearLength(year - 1)
  }

  function DaysBeforeMonth(year: nat, month: nat): nat
    requires 1 <= month <= 13
  {
    if month == 1 then 0 else DaysBeforeMonth(year, month - 1) + MonthLength(year, month - 1)
  }

  datatype Date = Date(year: nat, month: nat, day: nat)

  predicate IsDate(d: Date) {
    1 <= d.month <= 12 && 1 <= d.day <= MonthLength(d.year, d.month)
  }

  function DayNumber(d: Date): nat
    requires IsDate(d)
  {
    DaysBeforeYear(d.year) + DaysBeforeMonth(d.year, d.month) + d.day - 1
  }

  /** The year that contains a day, searched from a year not after it. */
  function YearOf(day: nat, from: nat): (year: nat)
    requires DaysBeforeYear(from) <= day
    ensures DaysBeforeYear(year) <= day < DaysBeforeYear(year + 1)
    decreases day - DaysBeforeYear(from)
  {
    if day < DaysBeforeYear(from + 1) then from else YearOf(day, from + 1)
  }

  function MonthOf(year: nat, day: nat, from: nat): (month: nat)
    requires 1 <= from <= 12 && DaysBeforeMonth(year, from) <= day < DaysBeforeMonth(year, 13)
    ensures 1 <= month <= 12 && DaysBeforeMonth(year, month) <= day < DaysBeforeMonth(year, month + 1)
    decreases 12 - from
  {
    if from == 12 || day < DaysBeforeMonth(year, from + 1) then from else MonthOf(year, day, from + 1)
  }

  lemma MonthsMakeAYear(year: nat)
    ensures DaysBeforeMonth(year, 13) == YearLength(year)
  {
    var february := MonthLength(year, 2);
    assert DaysBeforeMonth(year, 2) == 31;
    assert DaysBeforeMonth(year, 3) == 31 + february;
    assert DaysBeforeMonth(year, 5) == DaysBeforeMonth(year, 3) + 61;
    assert DaysBeforeMonth(year, 7) == DaysBeforeMonth(year, 5) + 61;
    assert DaysBeforeMonth(year, 9) == DaysBeforeMonth(year, 7) + 62;
    assert DaysBeforeMonth(year, 11) == DaysBeforeMonth(year, 9) + 61;
    assert DaysBeforeMonth(year, 13) == DaysBeforeMonth(year, 11) + 61;
  }

  /** The date of a day; every date is the date of its day number, and of no other day. */
  function DateOf(day: nat): (d: Date)
    ensures IsDate(d) && DayNumber(d) == day
  {
    var year := YearOf(day, 0);
    MonthsMakeAYear(year);
    var rest := day - DaysBeforeYear(year);
    var month := MonthOf(year, rest, 1);
    Date(year, month, rest - DaysBeforeMonth(year, month) + 1)
  }

  predicate DateBefore(a: Date, b: Date) {
    a.year < b.year || (a.year == b.year && (a.month < b.month || (a.month == b.month && a.day < b.day)))
  }

  lemma {:induction false} YearsAscend(year: nat, later: nat)
    requires year < later
    ensures DaysBeforeYear(year) + YearLength(year) <= DaysBeforeYear(later)
    decreases later
  {
    if year < later - 1 {
      YearsAscend(year, later - 1);
    }
  }

  lemma {:induction false} MonthsAscend(year: nat, month: nat, later: nat)
    requires 1 <= month < later <= 13
    ensures DaysBeforeMonth(year, month) + MonthLength(year, month) <= DaysBeforeMonth(year, later)
    decreases later
  {
    if month < later - 1 {
      MonthsAscend(year, month, later - 1);
    }
  }

  lemma DayInYear(d: Date)
    requires IsDate(d)
    ensures DaysBeforeYear(d.year) <= DayNumber(d) < DaysBeforeYear(d.year) + YearLength(d.year)
  {
    MonthsAscend(d.year, d.month, 13);
    MonthsMakeAYear(d.year);
  }

  lemma DatesAscend(a: Date, b: Date)
    requires IsDate(a) && IsDate(b) && DateBefore(a, b)
    ensures DayNumber(a) < DayNumber(b)
  {
    if a.year < b.year {
      DayInYear(a);
      DayInYear(b);
      YearsAscend(a.year, b.year);
    } else if a.month < b.month {
      MonthsAscend(a.year, a.month, b.month);
    }
  }

  /** Dates are ordered as their day numbers. */
  lemma DateOrder(a: Date, b: Date)
    requires IsDate(a) && IsDate(b)
    ensures DateBefore(a, b) <==> DayNumber(a) < DayNumber(b)
  {
    if DateBefore(a, b) {
      DatesAscend(a, b);
    } else if DateBefore(b, a) {
      DatesAscend(b, a);
    } else {
      assert a == b;
    }
  }

  // ---------- fixed-width fields ----------

  function Pow10(n: nat): (p: nat)
    ensures p > 0
  {
    if n == 0 then 1 else 10 * Pow10(n - 1)
  }

  function Digit(d: nat): char
    requires d < 10
  {
    '0' + d as char
  }

  function Digits(value: nat, width: nat): (s: string)
    ensures |s| == width
  {
    if width == 0 then "" else Digits(value / 10, width - 1) + [Digit(value % 10)]
  }

  /** Numbers of one width are ordered as their texts. */
  lemma {:induction false} DigitsOrder(a: nat, b: nat, width: nat)
    requires a < Pow10(width) && b < Pow10(width)
    ensures Less(Digits(a, width), Digits(b, width)) <==> a < b
    ensures Digits(a, width) == Digits(b, width) <==> a == b
    decreases width
  {
    if width > 0 {
      DigitsOrder(a / 10, b / 10, width - 1);
      var x, y := Digits(a / 10, width - 1), Digits(b / 10, width - 1);
      var p, q := [Digit(a % 10)], [Digit(b % 10)];
      LessByParts(x, p, y, q);
      assert Less(p, q) <==> a % 10 < b % 10;
      assert x + p == y + q ==>
        && x == (x + p)[..width - 1] == (y + q)[..width - 1] == y
        && (x + p)[width - 1] == (y + q)[width - 1];
    }
  }

  /** A number of fixed width and the character after it. */
  datatype Field = Field(value: nat, width: nat, after: char)

  function TextOf(fields: seq<Field>): string {
    if fields == [] then "" else Digits(fields[0].value, fields[0].width) + [fields[0].after] + TextOf(fields[1..])
  }

  predicate Before(a: seq<Field>, b: seq<Field>) {
    a != [] && b != [] && (a[0].value < b[0].value || (a[0].value == b[0].value && Before(a[1..], b[1..])))
  }

  predicate SameLayout(a: seq<Field>, b: seq<Field>) {
    && |a| == |b|
    && forall i | 0 <= i < |a| ::
        a[i].width == b[i].width && a[i].after == b[i].after
        && a[i].value < Pow10(a[i].width) && b[i].value < Pow10(b[i].width)
  }

  /** Texts of one layout are ordered as their fields, the first difference deciding. */
  lemma {:induction false} FieldsOrder(a: seq<Field>, b: seq<Field>)
    requires SameLayout(a, b)
    ensures Less(TextOf(a), TextOf(b)) <==> Before(a, b)
    decreases a
  {
    if a != [] {
      var f, g := a[0], b[0];
      var x, y := Digits(f.value, f.width), Digits(g.value, g.width);
      FieldsOrder(a[1..], b[1..]);
      DigitsOrder(f.value, g.value, f.width);
      LessByParts(x, [f.after], y, [g.after]);
      LessByParts(x + [f.after], TextOf(a[1..]), y + [g.after], TextOf(b[1..]));
      LessIrreflexive([f.after]);
      assert x + [f.after] == y + [g.after] <==> x == y by {
        assert (x + [f.after])[..f.width] == x && (y + [g.after])[..f.width] == y;
      }
    }
  }

  // ---------- timestamps ----------

  const SECOND := 1_000_000_000
  const DAY := 86400

  /** Seconds from the start of the year 0 to the start of 1970. */
  const EPOCH := 719528 * DAY

  lemma NextOfFour(y: nat)
    ensures (y + 4) / 4 == (y + 3) / 4 + if y % 4 == 0 then 1 else 0
  {
  }

  lemma NextOfHundred(y: nat)
    ensures (y + 100) / 100 == (y + 99) / 100 + if y % 100 == 0 then 1 else 0
  {
  }

  lemma NextOfFourHundred(y: nat)
    ensures (y + 400) / 400 == (y + 399) / 400 + if y % 400 == 0 then 1 else 0
  {
  }

  /** The leap years before a year. */
  function LeapsBefore(year: nat): int { (year + 3) / 4 - (year + 99) / 100 + (year + 399) / 400 }

  lemma {:induction false} LeapYears(year: nat)
    ensures DaysBeforeYear(year) == 365 * year + LeapsBefore(year)
  {
    if year > 0 {
      var y := year - 1;
      LeapYears(y);
      NextOfFour(y);
      NextOfHundred(y);
      NextOfFourHundred(y);
      LeapLength(y);
    }
  }

  lemma LeapLength(y: nat)
    ensures YearLength(y)
         == 365 + (if y % 4 == 0 then 1 else 0) - (if y % 100 == 0 then 1 else 0) + (if y % 400 == 0 then 1 else 0)
  {
    Hundreds(y, y / 100, y / 400);
  }

  lemma Hundreds(y: nat, q: nat, r: nat)
    ensures y == 100 * q ==> y % 4 == 0
    ensures y == 400 * r ==> y % 100 == 0
  {
    if y == 100 * q {
      assert y == 4 * (25 * q);
    }
    if y == 400 * r {
      assert y == 100 * (4 * r);
    }
  }

  lemma LeapCounts()
    ensures LeapsBefore(1970) == 478 && LeapsBefore(10000) == 2425
  {
  }

  lemma EpochIs1970(year: nat)
    requires year == 1970
    ensures EPOCH == DaysBeforeYear(year) * DAY
  {
    LeapYears(year);
    LeapCounts();
  }

  lemma LastDay(year: nat)
    requires year == 10000
    ensures DaysBeforeYear(year) == 3652425
  {
    LeapYears(year);
    LeapCounts();
  }

  /** The second, counted from the start of the year 0, of an instant in nanoseconds since 1970. */
  function SecondOf(instant: int): int { instant / SECOND + EPOCH }

  /** The instants that RFC 3339 can write in UTC: those of the years 0 to 9999. */
  predicate InYears(instant: int) {
    0 <= SecondOf(instant) < 3652425 * DAY
  }

  function Clock(h: nat, m: nat, n: nat): seq<Field> {
    [Field(h, 2, ':')] + ([Field(m, 2, ':')] + ([Field(n, 2, 'Z')] + []))
  }

  function ClockFields(s: nat): seq<Field> {
    Clock(s / 3600, s / 60 % 60, s % 60)
  }

  function DateFields(d: Date, rest: seq<Field>): seq<Field> {
    [Field(d.year, 4, '-')] + ([Field(d.month, 2, '-')] + ([Field(d.day, 2, 'T')] + rest))
  }

  function Fields(second: nat): seq<Field> {
    DateFields(DateOf(second / DAY), ClockFields(second % DAY))
  }

  /** time.Format(time.RFC3339) of a UTC time: yyyy-mm-ddThh:mm:ssZ. */
  function Format(instant: int): string
    requires InYears(instant)
  {
    TextOf(Fields(SecondOf(instant)))
  }

  lemma YearFits(day: nat)
    requires day < 3652425
    ensures DateOf(day).year < 10000
  {
    var year := DateOf(day).year;
    var last := 10000;
    LastDay(last);
    DayInYear(DateOf(day));
    if year > last {
      YearsAscend(last, year);
    }
  }

  /** The six fields of a date and a time of day. */
  function Six(d: Date, h: nat, m: nat, n: nat): seq<Field> {
    [Field(d.year, 4, '-'), Field(d.month, 2, '-'), Field(d.day, 2, 'T'),
     Field(h, 2, ':'), Field(m, 2, ':'), Field(n, 2, 'Z')]
  }

  lemma FieldsAreSix(second: nat)
    ensures var s := second % DAY; Fields(second) == Six(DateOf(second / DAY), s / 3600, s / 60 % 60, s % 60)
  {
  }

  predicate SixFit(d: Date, h: nat, m: nat, n: nat) {
    d.year < 10000 && d.month < 100 && d.day < 100 && h < 100 && m < 100 && n < 100
  }

  /** The values of a timestamp fit into their widths. */
  lemma FieldsFit(second: nat)
    requires second < 3652425 * DAY
    ensures var s := second % DAY; SixFit(DateOf(second / DAY), s / 3600, s / 60 % 60, s % 60)
  {
    YearFits(second / DAY);
    assert DateOf(second / DAY).day <= 31;
  }

  lemma SixAgree(d: Date, h: nat, m: nat, n: nat, d': Date, h': nat, m': nat, n': nat)
    requires SixFit(d, h, m, n) && SixFit(d', h', m', n')
    ensures SameLayout(Six(d, h, m, n), Six(d', h', m', n'))
  {
    assert Pow10(2) == 100;
    assert Pow10(4) == 100 * Pow10(2);
  }

  lemma LayoutsAgree(s: nat, t: nat)
    requires s < 3652425 * DAY && t < 3652425 * DAY
    ensures SameLayout(Fields(s), Fields(t))
  {
    FieldsFit(s);
    FieldsFit(t);
    FieldsAreSix(s);
    FieldsAreSix(t);
    var x, y := s % DAY, t % DAY;
    SixAgree(DateOf(s / DAY), x / 3600, x / 60 % 60, x % 60, DateOf(t / DAY), y / 3600, y / 60 % 60, y % 60);
  }

  /** The digits read back as the number. */
  lemma {:induction false} DigitsReadBack(value: nat, width: nat)
    requires value < Pow10(width)
    ensures DecimalValue(Digits(value, width)) == value && forall c | c in Digits(value, width) :: IsDigit(c)
  {
    if width > 0 {
      DigitsReadBack(value / 10, width - 1);
      var s := Digits(value, width);
      assert s[..|s| - 1] == Digits(value / 10, width - 1);
    }
  }

  lemma DateIsUnique(a: Date, b: Date)
    requires IsDate(a) && IsDate(b) && DayNumber(a) == DayNumber(b)
    ensures a == b
  {
    DateOrder(a, b);
    DateOrder(b, a);
  }

  lemma ThreeTexts(f: Field, g: Field, h: Field, rest: seq<Field>)
    ensures TextOf([f, g, h] + rest)
         == Digits(f.value, f.width) + [f.after] + Digits(g.value, g.width) + [g.after]
            + Digits(h.value, h.width) + [h.after] + TextOf(rest)
  {
    var all := [f, g, h] + rest;
    assert all[1..] == [g, h] + rest && all[1..][1..] == [h] + rest && all[1..][1..][1..] == rest;
    assert TextOf(all[1..][1..]) == Digits(h.value, h.width) + [h.after] + TextOf(rest);
    assert TextOf(all[1..]) == Digits(g.value, g.width) + [g.after] + TextOf(all[1..][1..]);
  }

  lemma SixText(d: Date, h: nat, m: nat, n: nat)
    ensures TextOf(Six(d, h, m, n))
         == Digits(d.year, 4) + "-" + Digits(d.month, 2) + "-" + Digits(d.day, 2) + "T"
            + (Digits(h, 2) + ":" + Digits(m, 2) + ":" + Digits(n, 2) + "Z")
  {
    var year, month, day := Field(d.year, 4, '-'), Field(d.month, 2, '-'), Field(d.day, 2, 'T');
    var hour, minute, second := Field(h, 2, ':'), Field(m, 2, ':'), Field(n, 2, 'Z');
    ThreeTexts(year, month, day, [hour, minute, second]);
    ThreeTexts(hour, minute, second, []);
    assert Six(d, h, m, n) == [year, month, day] + [hour, minute, second];
    assert [hour, minute, second] == [hour, minute, second] + [];
  }

  lemma PartsOfHours(h: nat, m: nat, n: nat)
    requires h < 24 && m < 60 && n < 60
    ensures var s := 3600 * h + 60 * m + n; s < DAY && s / 3600 == h && s / 60 % 60 == m && s % 60 == n
  {
    var s := 3600 * h + 60 * m + n;
    assert s / 60 == 60 * h + m;
  }

  lemma PartsOfDay(days: nat, s: nat)
    requires s < DAY
    ensures (days * DAY + s) / DAY == days && (days * DAY + s) % DAY == s
  {
  }

  /** The text of an instant spells its date and time of day. */
  lemma FormatSpells(d: Date, h: nat, m: nat, n: nat, instant: int)
    requires IsDate(d) && h < 24 && m < 60 && n < 60 && InYears(instant)
    requires instant / SECOND + EPOCH == DayNumber(d) * DAY + 3600 * h + 60 * m + n
    ensures Format(instant)
         == Digits(d.year, 4) + "-" + Digits(d.month, 2) + "-" + Digits(d.day, 2) + "T"
            + (Digits(h, 2) + ":" + Digits(m, 2) + ":" + Digits(n, 2) + "Z")
  {
    var second := SecondOf(instant);
    PartsOfHours(h, m, n);
    PartsOfDay(DayNumber(d), 3600 * h + 60 * m + n);
    DateIsUnique(d, DateOf(second / DAY));
    FieldsAreSix(second);
    SixText(d, h, m, n);
  }

  lemma ClockFieldsOrder(h: nat, m: nat, n: nat, h': nat, m': nat, n': nat)
    requires m < 60 && n < 60 && m' < 60 && n' < 60
    ensures Before(Clock(h, m, n), Clock(h', m', n')) <==> 3600 * h + 60 * m + n < 3600 * h' + 60 * m' + n'
  {
    FirstDecides(Field(n, 2, 'Z'), [], Field(n', 2, 'Z'), []);
    FirstDecides(Field(m, 2, ':'), [Field(n, 2, 'Z')] + [], Field(m', 2, ':'), [Field(n', 2, 'Z')] + []);
    FirstDecides(Field(h, 2, ':'), [Field(m, 2, ':')] + ([Field(n, 2, 'Z')] + []),
                 Field(h', 2, ':'), [Field(m', 2, ':')] + ([Field(n', 2, 'Z')] + []));
  }

  lemma Sexagesimal(s: nat)
    ensures s == 3600 * (s / 3600) + 60 * (s / 60 % 60) + s % 60 && s / 60 % 60 < 60 && s % 60 < 60
  {
  }

  lemma ClockOrder(s: nat, t: nat)
    ensures Before(ClockFields(s), ClockFields(t)) <==> s < t
  {
    Sexagesimal(s);
    Sexagesimal(t);
    ClockFieldsOrder(s / 3600, s / 60 % 60, s % 60, t / 3600, t / 60 % 60, t % 60);
  }

  lemma FirstDecides(f: Field, a: seq<Field>, g: Field, b: seq<Field>)
    ensures Before([f] + a, [g] + b) <==> f.value < g.value || (f.value == g.value && Before(a, b))
  {
    assert ([f] + a)[1..] == a && ([g] + b)[1..] == b;
  }

  lemma DateFieldsOrder(a: Date, x: seq<Field>, b: Date, y: seq<Field>)
    ensures Before(DateFields(a, x), DateFields(b, y)) <==> DateBefore(a, b) || (a == b && Before(x, y))
  {
    FirstDecides(Field(a.day, 2, 'T'), x, Field(b.day, 2, 'T'), y);
    FirstDecides(Field(a.month, 2, '-'), [Field(a.day, 2, 'T')] + x, Field(b.month, 2, '-'),
                 [Field(b.day, 2, 'T')] + y);
    FirstDecides(Field(a.year, 4, '-'), [Field(a.month, 2, '-')] + ([Field(a.day, 2, 'T')] + x),
                 Field(b.year, 4, '-'), [Field(b.month, 2, '-')] + ([Field(b.day, 2, 'T')] + y));
  }

  lemma SecondsOrder(s: nat, t: nat, a: Date, b: Date)
    requires IsDate(a) && IsDate(b) && DayNumber(a) == s / DAY && DayNumber(b) == t / DAY
    ensures Before(DateFields(a, ClockFields(s % DAY)), DateFields(b, ClockFields(t % DAY))) <==> s < t
  {
    DateFieldsOrder(a, ClockFields(s % DAY), b, ClockFields(t % DAY));
    DateOrder(a, b);
    ClockOrder(s % DAY, t % DAY);
    if a == b {
      assert s / DAY == t / DAY;
    } else if DayNumber(a) == DayNumber(b) {
      DateOrder(b, a);
    }
  }

  lemma TextOrder(s: nat, t: nat)
    requires s < 3652425 * DAY && t < 3652425 * DAY
    ensures Less(TextOf(Fields(s)), TextOf(Fields(t))) <==> s < t
  {
    LayoutsAgree(s, t);
    FieldsOrder(Fields(s), Fields(t));
    SecondsOrder(s, t, DateOf(s / DAY), DateOf(t / DAY));
  }

  /** The texts of two instants compare as the instants do, to the second. */
  lemma TextOrderIsTimeOrder(a: int, b: int)
    requires InYears(a) && InYears(b)
    ensures Less(Format(a), Format(b)) <==> a / SECOND < b / SECOND
  {
    TextOrder(SecondOf(a), SecondOf(b));
  }
}
