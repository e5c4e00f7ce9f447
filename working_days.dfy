/**
 * Working-day arithmetic behind the default "Update due" date.
 *
 * A calendar date is its proleptic Gregorian ordinal, as Python's
 * `date.toordinal()` gives it: 0001-01-01 is ordinal 1 and a Monday, and
 * `date.max` (9999-12-31) is ordinal 3652059. `date.weekday()` is then
 * `(ordinal - 1) % 7`, with Monday = 0 and Sunday = 6.
 */
module WorkingDays {
  import opened Wrappers

  /** The ordinal of `date.max`. */
  const MaxOrdinal: int := 3652059

  /** The number of working days `create_update` adds when no due date is given. */
  const DefaultDueDays: int := 5

  /** A date Python can represent. */
  type Date = d: int | 1 <= d <= MaxOrdinal witness 1

  /** `date.weekday()`: Monday is 0, Friday 4, Sunday 6. */
  function Weekday(d: int): (r: int)
    ensures 0 <= r < 7
    ensures (d - 1 - r) % 7 == 0
  {
    (d - 1) % 7
  }

  /** Moving `k` days ahead within a week moves the weekday ahead by `k`, wrapping past Sunday. */
  lemma WeekdayAhead(d: int, k: int)
    requires 0 <= k <= 7
    ensures Weekday(d + k) == if Weekday(d) + k < 7 then Weekday(d) + k else Weekday(d) + k - 7
  {
    var q := (d - 1) / 7;
    assert d - 1 == 7 * q + Weekday(d);
    if Weekday(d) + k < 7 {
      assert d + k - 1 == 7 * q + (Weekday(d) + k);
    } else {
      assert d + k - 1 == 7 * (q + 1) + (Weekday(d) + k - 7);
    }
  }

  /** Monday to Friday: the days the loop counts. */
  predicate IsWorkday(d: int) {
    Weekday(d) < 5
  }

  /** The first working day strictly after `d`. */
  function NextWorkday(d: int): (r: int)
    ensures d < r <= d + 3
    ensures IsWorkday(r)
  {
    WeekdayAhead(d, 1);
    WeekdayAhead(d, 2);
    WeekdayAhead(d, 3);
    if Weekday(d) == 4 then d + 3 else if Weekday(d) == 5 then d + 2 else d + 1
  }

  /** No working day lies strictly between `d` and `NextWorkday(d)`. */
  lemma NextWorkdayIsFirst(d: int, e: int)
    requires d < e < NextWorkday(d)
    ensures !IsWorkday(e)
  {
    WeekdayAhead(d, 1);
    WeekdayAhead(d, 2);
  }

  /** The date reached from `start` by stepping over `n` working days; `start` itself when `n <= 0`. */
  function AddWorkdays(start: int, n: int): (r: int)
    ensures n <= 0 ==> r == start
    ensures n > 0 ==> start + n <= r <= start + 3 * n && IsWorkday(r)
    decreases n
  {
    if n <= 0 then start else NextWorkday(AddWorkdays(start, n - 1))
  }

  /** The number of working days in the half-open interval `(a, b]`. */
  function CountWorkdays(a: int, b: int): nat
    decreases b - a
  {
    if b <= a then 0 else CountWorkdays(a, b - 1) + (if IsWorkday(b) then 1 else 0)
  }

  /** Every step moves forward, so adding more working days never gives an earlier date. */
  lemma {:induction false} AddWorkdaysMonotone(start: int, n: int, m: int)
    requires n <= m
    ensures start <= AddWorkdays(start, n) <= AddWorkdays(start, m)
    decreases m
  {
    if 0 < m {
      if n < m {
        AddWorkdaysMonotone(start, n, m - 1);
      } else {
        AddWorkdaysMonotone(start, n - 1, m - 1);
      }
    }
  }

  /** Between a date and the next working day nothing is counted. */
  lemma {:induction false} CountAcrossGap(a: int, x: int, d: int)
    requires a <= x <= d < NextWorkday(x)
    ensures CountWorkdays(a, d) == CountWorkdays(a, x)
    decreases d - x
  {
    if x < d {
      NextWorkdayIsFirst(x, d);
      CountAcrossGap(a, x, d - 1);
    }
  }

  /** The count only grows as the interval's end moves forward. */
  lemma {:induction false} CountMonotone(a: int, b: int, c: int)
    requires b <= c
    ensures CountWorkdays(a, b) <= CountWorkdays(a, c)
    decreases c - b
  {
    if b < c {
      CountMonotone(a, b, c - 1);
    }
  }

  /** An interval holds no more working days than days. */
  lemma {:induction false} CountBound(a: int, b: int)
    requires a <= b
    ensures CountWorkdays(a, b) <= b - a
    decreases b - a
  {
    if a < b {
      CountBound(a, b - 1);
    }
  }

  /**
   * For `n >= 1` the result is a working day after `start` such that
   * exactly `n` working days lie in `(start, result]`, and it is the
   * earliest date with that many.
   */
  lemma {:induction false} AddWorkdaysCounts(start: int, n: int)
    requires n >= 1
    ensures start < AddWorkdays(start, n)
    ensures IsWorkday(AddWorkdays(start, n))
    ensures CountWorkdays(start, AddWorkdays(start, n)) == n
    ensures forall d :: start <= d < AddWorkdays(start, n) ==> CountWorkdays(start, d) < n
    decreases n
  {
    var x := AddWorkdays(start, n - 1);
    var r := NextWorkday(x);
    AddWorkdaysMonotone(start, 0, n - 1);
    if n > 1 {
      AddWorkdaysCounts(start, n - 1);
    }
    assert CountWorkdays(start, x) == n - 1;
    CountAcrossGap(start, x, r - 1);
    assert CountWorkdays(start, r) == n;
    forall d | start <= d < r
      ensures CountWorkdays(start, d) < n
    {
      CountMonotone(start, d, r - 1);
    }
  }

  /** Any seven consecutive days hold exactly five working days. */
  lemma WeekCount(a: int)
    ensures CountWorkdays(a, a + 7) == 5
  {
    assert CountWorkdays(a, a + 1) == (if IsWorkday(a + 1) then 1 else 0);
    assert CountWorkdays(a, a + 2) == CountWorkdays(a, a + 1) + (if IsWorkday(a + 2) then 1 else 0);
    assert CountWorkdays(a, a + 3) == CountWorkdays(a, a + 2) + (if IsWorkday(a + 3) then 1 else 0);
    assert CountWorkdays(a, a + 4) == CountWorkdays(a, a + 3) + (if IsWorkday(a + 4) then 1 else 0);
    assert CountWorkdays(a, a + 5) == CountWorkdays(a, a + 4) + (if IsWorkday(a + 5) then 1 else 0);
    assert CountWorkdays(a, a + 6) == CountWorkdays(a, a + 5) + (if IsWorkday(a + 6) then 1 else 0);
    assert CountWorkdays(a, a + 7) == CountWorkdays(a, a + 6) + (if IsWorkday(a + 7) then 1 else 0);
    WeekdayAhead(a, 1);
    WeekdayAhead(a, 2);
    WeekdayAhead(a, 3);
    WeekdayAhead(a, 4);
    WeekdayAhead(a, 5);
    WeekdayAhead(a, 6);
    WeekdayAhead(a, 7);
  }

  /** With the default of five working days the due date is five to seven calendar days ahead. */
  lemma DefaultDueSpan(start: int)
    ensures start + 5 <= AddWorkdays(start, DefaultDueDays) <= start + 7
  {
    var r := AddWorkdays(start, DefaultDueDays);
    AddWorkdaysCounts(start, DefaultDueDays);
    WeekCount(start);
    if r < start + 5 {
      CountMonotone(start, r, start + 4);
      CountBound(start, start + 4);
    }
  }

  /** One step of the loop: the next day is either the next working day or still short of it. */
  lemma StepForward(start: int, n: int, c: int)
    requires 0 <= n
    requires AddWorkdays(start, n) <= c < NextWorkday(AddWorkdays(start, n))
    ensures IsWorkday(c + 1) ==> c + 1 == AddWorkdays(start, n + 1)
    ensures !IsWorkday(c + 1) ==> c + 1 < NextWorkday(AddWorkdays(start, n))
  {
    if c + 1 < NextWorkday(AddWorkdays(start, n)) {
      NextWorkdayIsFirst(AddWorkdays(start, n), c + 1);
    }
  }

  /**
   * `get_next_working_day(start, days)`: step one day at a time and count
   * the Monday-to-Friday days until `days` of them have been passed. Python
   * raises OverflowError when a step would pass `date.max`; that is `None`.
   */
  method NextWorkingDay(start: Date, days: int) returns (r: Option<Date>)
    ensures r.Some? <==> AddWorkdays(start, days) <= MaxOrdinal
    ensures r.Some? ==> r.value == AddWorkdays(start, days)
    ensures days <= 0 ==> r == Some(start)
  {
    var current: int := start;
    var added := 0;
    while added < days
      invariant 0 <= added && (0 < days ==> added <= days) && (days <= 0 ==> added == 0)
      invariant start <= current <= MaxOrdinal
      invariant AddWorkdays(start, added) <= current < NextWorkday(AddWorkdays(start, added))
      invariant current == AddWorkdays(start, added) || added < days
      decreases days - added, MaxOrdinal - current
    {
      if current == MaxOrdinal {
        AddWorkdaysMonotone(start, added + 1, days);
        return None;
      }
      StepForward(start, added, current);
      current := current + 1;
      if IsWorkday(current) {
        added := added + 1;
      }
    }
    return Some(current);
  }
}
