/**
 * The calendar arithmetic the report relies on: a day is a day number
 * (days since 1970-01-01, negative before it), and the Gregorian date of a
 * day is reached by stepping one day at a time from the epoch. This is
 * what `moment(x).add(i, "days")` and `moment().subtract(i, "days")` do to
 * the date part of a moment.
 */
module Calendar {
  /** Days since 1970-01-01. */
  type Day = int

  datatype Date = Date(year: int, month: int, day: int)

  predicate IsLeapYear(y: int) {
    (y % 4 == 0 && y % 100 != 0) || y % 400 == 0
  }

  function DaysInMonth(y: int, m: int): (n: int)
    requires 1 <= m <= 12
    ensures 28 <= n <= 31
  {
    if m == 2 then (if IsLeapYear(y) then 29 else 28)
    else if m == 4 || m == 6 || m == 9 || m == 11 then 30
    else 31
  }

  predicate Valid(d: Date) {
    1 <= d.month <= 12 && 1 <= d.day <= DaysInMonth(d.year, d.month)
  }

  /** The date read as the number YYYYMMDD. */
  function Ordinal(d: Date): (r: int) {
    d.year * 10000 + d.month * 100 + d.day
  }

  /** Calendar order: by year, then month, then day. */
  predicate Before(x: Date, y: Date) {
    x.year < y.year
    || (x.year == y.year && x.month < y.month)
    || (x.year == y.year && x.month == y.month && x.day < y.day)
  }

  /** The following calendar day. */
  function Next(d: Date): (r: Date)
    requires Valid(d)
    ensures Valid(r) && Before(d, r)
  {
    if d.day < DaysInMonth(d.year, d.month) then Date(d.year, d.month, d.day + 1)
    else if d.month < 12 then Date(d.year, d.month + 1, 1)
    else Date(d.year + 1, 1, 1)
  }

  /** The preceding calendar day. */
  function Prev(d: Date): (r: Date)
    requires Valid(d)
    ensures Valid(r) && Before(r, d)
  {
    if d.day > 1 then Date(d.year, d.month, d.day - 1)
    else if d.month > 1 then Date(d.year, d.month - 1, DaysInMonth(d.year, d.month - 1))
    else Date(d.year - 1, 12, 31)
  }

  /** Stepping back a day and forward again, or forward and back, returns to the same date. */
  lemma NextPrevInverse(d: Date)
    requires Valid(d)
    ensures Next(Prev(d)) == d && Prev(Next(d)) == d
  {
  }

  const Epoch := Date(1970, 1, 1)

  /** The calendar date of day number `n`. */
  function DateOf(n: Day): (r: Date)
    ensures Valid(r)
    decreases if n < 0 then -n else n
  {
    if n == 0 then Epoch
    else if n > 0 then Next(DateOf(n - 1))
    else Prev(DateOf(n + 1))
  }

  /** Day `n + 1` is the calendar day after day `n`, on both sides of the epoch. */
  lemma {:induction false} DateOfSucc(n: Day)
    ensures DateOf(n + 1) == Next(DateOf(n))
  {
    if n < 0 {
      NextPrevInverse(DateOf(n + 1));
    }
  }

  /** `moment(d).add(i, "days")`: `i` calendar steps forward. */
  function AddDays(d: Date, i: nat): (r: Date)
    requires Valid(d)
    ensures Valid(r)
  {
    if i == 0 then d else Next(AddDays(d, i - 1))
  }

  /** `moment(d).subtract(i, "days")`: `i` calendar steps back. */
  function SubtractDays(d: Date, i: nat): (r: Date)
    requires Valid(d)
    ensures Valid(r)
  {
    if i == 0 then d else Prev(SubtractDays(d, i - 1))
  }

  /** Day `n + i` is the date `i` days after day `n`. */
  lemma {:induction false} DateOfAdd(n: Day, i: nat)
    ensures DateOf(n + i) == AddDays(DateOf(n), i)
  {
    if i > 0 {
      DateOfAdd(n, i - 1);
      DateOfSucc(n + i - 1);
    }
  }

  /** Day `n - i` is the date `i` days before day `n`. */
  lemma {:induction false} DateOfSubtract(n: Day, i: nat)
    ensures DateOf(n - i) == SubtractDays(DateOf(n), i)
  {
    if i > 0 {
      DateOfSubtract(n, i - 1);
      DateOfSucc(n - i);
      NextPrevInverse(DateOf(n - i));
    }
  }

  /** The order on dates agrees with the numeric order of YYYYMMDD. */
  lemma OrdinalOrder(x: Date, y: Date)
    requires Valid(x) && Valid(y)
    ensures Before(x, y) <==> Ordinal(x) < Ordinal(y)
  {
  }

  /** A later day number has a later date. */
  lemma {:induction false} DateOfIncreasing(a: Day, b: Day)
    requires a < b
    ensures Before(DateOf(a), DateOf(b))
    decreases b - a
  {
    DateOfSucc(a);
    if a + 1 < b {
      DateOfIncreasing(a + 1, b);
      OrdinalOrder(DateOf(a), DateOf(a + 1));
      OrdinalOrder(DateOf(a + 1), DateOf(b));
      OrdinalOrder(DateOf(a), DateOf(b));
    }
  }

  /** Distinct day numbers have distinct dates. */
  lemma DateOfInjective(a: Day, b: Day)
    ensures DateOf(a) == DateOf(b) ==> a == b
  {
    if a < b {
      DateOfIncreasing(a, b);
    } else if b < a {
      DateOfIncreasing(b, a);
    }
  }
}
