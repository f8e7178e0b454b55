/**
 * Calendar dates as Python's `datetime.date` treats them: comparison is the
 * lexicographic order of (year, month, day), and `(b - a).days` is the
 * difference of proleptic Gregorian ordinals (`date.toordinal`).
 */
module Dates {
  import opened Wrappers

  datatype Date = Date(year: int, month: int, day: int)

  predicate IsLeap(y: int) {
    y % 4 == 0 && (y % 100 != 0 || y % 400 == 0)
  }

  function DaysInMonth(y: int, m: int): (n: int)
    requires 1 <= m <= 12
    ensures 28 <= n <= 31
  {
    if m == 2 then (if IsLeap(y) then 29 else 28)
    else if m == 4 || m == 6 || m == 9 || m == 11 then 30
    else 31
  }

  function DaysInYear(y: int): int {
    if IsLeap(y) then 366 else 365
  }

  /** Python's `date.min`..`date.max` range and a day that exists in its month. */
  predicate Valid(d: Date) {
    1 <= d.year <= 9999 && 1 <= d.month <= 12 && 1 <= d.day <= DaysInMonth(d.year, d.month)
  }

  /** A `datetime.date` value: Python cannot construct any other. */
  type CalendarDate = d: Date | Valid(d) witness Date(1, 1, 1)

  /** A date argument as the calculators receive it: absent (`None`), a date
      object, or text still to be parsed with `date.fromisoformat`. */
  datatype DateField = Absent | Given(date: CalendarDate) | Text(text: string)

  /** A date argument after parsing: absent, a date, or text that did not parse. */
  datatype Resolved = Missing | Found(date: CalendarDate) | Unparsable

  /** Parse a date argument; `parse` stands for `date.fromisoformat`, returning
      nothing where it would raise. */
  function Resolve(f: DateField, parse: string -> Option<CalendarDate>): (r: Resolved)
    ensures f.Absent? <==> r.Missing?
    ensures f.Given? ==> r == Found(f.date)
    ensures f.Text? ==> (r.Unparsable? <==> parse(f.text).None?)
    ensures f.Text? && parse(f.text).Some? ==> r == Found(parse(f.text).value)
  {
    match f
    case Absent => Missing
    case Given(d) => Found(d)
    case Text(s) => if parse(s).Some? then Found(parse(s).value) else Unparsable
  }

  /** Days in the years before `y` (Python's `_days_before_year`). */
  function DaysBeforeYear(y: int): int {
    var y1 := y - 1;
    y1 * 365 + y1 / 4 - y1 / 100 + y1 / 400
  }

  /** Days in the months of year `y` before month `m` (Python's `_days_before_month`). */
  function DaysBeforeMonth(y: int, m: int): int
    requires 1 <= m <= 13
    decreases m
  {
    if m == 1 then 0 else DaysBeforeMonth(y, m - 1) + DaysInMonth(y, m - 1)
  }

  /** Python's `d.toordinal()`: 1 for 0001-01-01. */
  function Ordinal(d: Date): int
    requires Valid(d)
  {
    DaysBeforeYear(d.year) + DaysBeforeMonth(d.year, d.month) + d.day
  }

  /** Python's `a < b` on dates. */
  predicate Before(a: Date, b: Date) {
    a.year < b.year || (a.year == b.year && (a.month < b.month || (a.month == b.month && a.day < b.day)))
  }

  /** Python's `(b - a).days`. */
  function DaysBetween(a: Date, b: Date): int
    requires Valid(a) && Valid(b)
  {
    Ordinal(b) - Ordinal(a)
  }

  /** Going from `y - 1` to `y`, each of the leap-year counts steps by one
      exactly at its multiples. */
  lemma StepBy4(y: int)
    ensures y / 4 - (y - 1) / 4 == (if y % 4 == 0 then 1 else 0)
  {
  }

  lemma StepBy100(y: int)
    ensures y / 100 - (y - 1) / 100 == (if y % 100 == 0 then 1 else 0)
  {
  }

  lemma StepBy400(y: int)
    ensures y / 400 - (y - 1) / 400 == (if y % 400 == 0 then 1 else 0)
  {
  }

  /** A multiple of 400 is one of 100, and a multiple of 100 one of 4. */
  lemma MultiplesNest(y: int)
    ensures y % 400 == 0 ==> y % 100 == 0
    ensures y % 100 == 0 ==> y % 4 == 0
  {
    if y % 400 == 0 {
      var q := y / 400;
      assert y == 400 * q;
      assert y / 100 == 4 * q;
    }
    if y % 100 == 0 {
      var q := y / 100;
      assert y == 100 * q;
      assert y / 4 == 25 * q;
    }
  }

  lemma YearStep(y: int)
    requires y >= 1
    ensures DaysBeforeYear(y + 1) == DaysBeforeYear(y) + DaysInYear(y)
  {
    StepBy4(y);
    StepBy100(y);
    StepBy400(y);
    MultiplesNest(y);
    var d4 := if y % 4 == 0 then 1 else 0;
    var d100 := if y % 100 == 0 then 1 else 0;
    var d400 := if y % 400 == 0 then 1 else 0;
    assert DaysBeforeYear(y + 1) - DaysBeforeYear(y) == 365 + d4 - d100 + d400;
    assert DaysInYear(y) == 365 + d4 - d100 + d400;
  }

  lemma {:induction false} MonthBound(y: int, m: int)
    requires 1 <= m <= 13
    ensures 0 <= DaysBeforeMonth(y, m) <= DaysBeforeMonth(y, 13)
    ensures DaysBeforeMonth(y, 13) == DaysInYear(y)
    decreases 13 - m
  {
    if m < 13 {
      MonthBound(y, m + 1);
    }
  }

  lemma {:induction false} MonthMonotone(y: int, m: int, n: int)
    requires 1 <= m < n <= 12
    ensures DaysBeforeMonth(y, m) + DaysInMonth(y, m) <= DaysBeforeMonth(y, n)
    decreases n - m
  {
    if m + 1 < n {
      MonthMonotone(y, m + 1, n);
    }
  }

  lemma {:induction false} YearMonotone(y: int, z: int)
    requires 1 <= y < z
    ensures DaysBeforeYear(y) + DaysInYear(y) <= DaysBeforeYear(z)
    decreases z - y
  {
    YearStep(y);
    if y + 1 < z {
      YearMonotone(y + 1, z);
    }
  }

  lemma OrdinalWithinYear(d: Date)
    requires Valid(d)
    ensures DaysBeforeYear(d.year) < Ordinal(d) <= DaysBeforeYear(d.year) + DaysInYear(d.year)
  {
    MonthBound(d.year, d.month);
    MonthBound(d.year, d.month + 1);
  }

  /** Python compares dates field by field, and that order is the order of their ordinals. */
  lemma BeforeIsOrdinalOrder(a: Date, b: Date)
    requires Valid(a) && Valid(b)
    ensures Before(a, b) <==> Ordinal(a) < Ordinal(b)
    ensures a == b <==> Ordinal(a) == Ordinal(b)
  {
    if a.year != b.year {
      var (p, q) := if a.year < b.year then (a, b) else (b, a);
      OrdinalWithinYear(p);
      OrdinalWithinYear(q);
      YearMonotone(p.year, q.year);
    } else if a.month != b.month {
      var (p, q) := if a.month < b.month then (a, b) else (b, a);
      MonthMonotone(p.year, p.month, q.month);
    }
  }
}
