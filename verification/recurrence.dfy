/** The recurring-shift engine of the shift organizer: given a shift's anchor
    date and repeat interval, the next date on which the shift falls.

    Dates are day numbers (days since 1970-01-01), so "midnight" normalisation
    and the millisecond arithmetic of the page collapse to integer subtraction.
    The caller supplies "today". */
module Recurrence {
  import opened Options

  /** A calendar date without time of day, as a day number. */
  type Day = int

  function Abs(x: int): nat {
    if x < 0 then -x else x
  }

  /** JavaScript's `%`: the remainder of division truncated toward zero, which
      takes the sign of the dividend (unlike Dafny's Euclidean `%`). */
  function JsRem(a: int, b: int): (r: int)
    requires b != 0
    ensures Abs(r) < Abs(b)
    ensures r != 0 ==> (r < 0 <==> a < 0)
    ensures a >= 0 ==> r == a % Abs(b)
    ensures (a - r) % Abs(b) == 0
  {
    var m := Abs(a) % Abs(b);
    RemainderCongruent(a, Abs(b));
    if a >= 0 then m else -m
  }

  /** Taking away the remainder of the magnitude, with the dividend's sign,
      leaves a multiple of the divisor. */
  lemma RemainderCongruent(a: int, d: int)
    requires d >= 1
    ensures a >= 0 ==> (a - Abs(a) % d) % d == 0
    ensures a < 0 ==> (a - -(Abs(a) % d)) % d == 0
  {
    var n := Abs(a);
    var q := n / d;
    assert n == q * d + n % d;
    if a >= 0 {
      assert a - n % d == q * d + 0;
      ModMultiplePlus(q, d, 0);
    } else {
      assert a - -(n % d) == (-q) * d + 0;
      ModMultiplePlus(-q, d, 0);
    }
  }

  /** The page's `calculateNextOccurrence`, on day numbers.

      An anchor on or after today is returned as it is. Otherwise the days since
      the anchor are reduced modulo the interval and today is advanced by the
      interval minus that remainder. A zero interval makes the page's `%` yield
      `NaN`, its date arithmetic an invalid date, and the `toISOString` call that
      formats it throw a `RangeError` while the table renders, so no date is
      ever shown: `None` here stands for that throw. A
      negative interval is not rejected by the page's arithmetic either, and is
      carried through with JavaScript's remainder. */
  function NextOccurrence(anchor: Day, repeatDays: int, today: Day): (r: Option<Day>)
    ensures anchor >= today ==> r == Some(anchor)
    ensures r.None? <==> anchor < today && repeatDays == 0
  {
    if anchor >= today then Some(anchor)
    else if repeatDays == 0 then None
    else
      var daysSince := today - anchor;
      var daysUntilNext := repeatDays - JsRem(daysSince, repeatDays);
      Some(today + daysUntilNext)
  }

  /** `d` is an occurrence day of a shift anchored at `anchor` repeating every `r` days. */
  predicate OnLattice(anchor: Day, r: int, d: Day)
    requires r >= 1
  {
    (d - anchor) % r == 0
  }

  /** `(q * r + x) % r == x` for a remainder-sized `x`. */
  lemma ModMultiplePlus(q: int, r: int, x: int)
    requires r >= 1 && 0 <= x < r
    ensures (q * r + x) % r == x
  {
    var a := q * r + x;
    var k := a / r;
    var t := q - k;
    assert a == k * r + a % r;
    assert t * r == q * r - k * r;
    assert t * r == a % r - x;
  }

  /** For an anchor in the past and a positive interval: the result is strictly
      after today and at most one interval away, and it is exactly one interval
      away when today is itself an occurrence day. Today is never returned. */
  lemma {:induction false} NextIsStrictlyFuture(anchor: Day, r: int, today: Day)
    requires r >= 1 && anchor < today
    ensures NextOccurrence(anchor, r, today).Some?
    ensures today < NextOccurrence(anchor, r, today).value <= today + r
    ensures NextOccurrence(anchor, r, today).value == today + r
            <==> (today - anchor) % r == 0
  {
    var rem := JsRem(today - anchor, r);
    assert rem == (today - anchor) % r;
    assert NextOccurrence(anchor, r, today) == Some(today + r - rem);
  }

  /** For an anchor in the past, the result is an occurrence day: anchor plus a
      whole number of intervals. */
  lemma {:induction false} NextIsOnLattice(anchor: Day, r: int, today: Day)
    requires r >= 1 && anchor < today
    ensures NextOccurrence(anchor, r, today).Some?
    ensures OnLattice(anchor, r, NextOccurrence(anchor, r, today).value)
  {
    var m := today - anchor;
    var q := m / r;
    var rem := m % r;
    assert m == q * r + rem;
    var n := today + r - rem;
    assert NextOccurrence(anchor, r, today) == Some(n);
    assert n - anchor == (q + 1) * r + 0;
    ModMultiplePlus(q + 1, r, 0);
  }

  /** For an anchor in the past, no occurrence day lies strictly between today
      and the result: it is the first occurrence after today. */
  lemma {:induction false} NextIsMinimal(anchor: Day, r: int, today: Day, d: Day)
    requires r >= 1 && anchor < today
    requires today < d < NextOccurrence(anchor, r, today).value
    ensures !OnLattice(anchor, r, d)
  {
    var m := today - anchor;
    var q := m / r;
    var rem := m % r;
    assert m == q * r + rem;
    assert NextOccurrence(anchor, r, today) == Some(today + r - rem);
    var x := rem + (d - today);
    assert 0 < x < r;
    assert d - anchor == q * r + x;
    ModMultiplePlus(q, r, x);
  }

  /** Asking again on the day the first answer named moves on by exactly one
      interval: stepping through the occurrences never skips or repeats a date. */
  lemma {:induction false} NextStepsOnePeriod(anchor: Day, r: int, today: Day)
    requires r >= 1 && anchor < today
    ensures NextOccurrence(anchor, r, today).Some?
    ensures var n := NextOccurrence(anchor, r, today).value;
            NextOccurrence(anchor, r, n) == Some(n + r)
  {
    NextIsStrictlyFuture(anchor, r, today);
    NextIsOnLattice(anchor, r, today);
    var n := NextOccurrence(anchor, r, today).value;
    assert JsRem(n - anchor, r) == 0;
  }

  /** Worked dates, as day numbers: 2025-05-04 is day 20212, 2025-05-14 is
      20222, 2025-05-20 is 20228, 2025-05-24 is 20232 and 2025-06-01 is 20240. */
  lemma Scenarios()
    // anchored on today: the anchor itself
    ensures NextOccurrence(20212, 10, 20212) == Some(20212)
    // today is an occurrence day after the anchor: one full period later
    ensures NextOccurrence(20212, 10, 20222) == Some(20232)
    // 16 days since the anchor, 16 mod 10 = 6, 4 days to go
    ensures NextOccurrence(20212, 10, 20228) == Some(20232)
    // anchor still ahead of today
    ensures NextOccurrence(20240, 7, 20228) == Some(20240)
    // an interval of zero has no next date
    ensures NextOccurrence(20212, 0, 20228) == None
  {
  }
}
