/** Calendars whose days all have the same length. */
module Days {
  import opened BusinessCalendar

  /** Days of this length; instant -offset begins day 0. */
  function EqualDays(length: int, offset: int, work: int -> Option<Interval>, horizon: int): Calendar
    requires length > 0
  {
    Calendar(t => (t + offset) / length, work, horizon, t => (t + offset) % length, (d, k) => length * d + k - offset)
  }

  lemma DivisionUnique(n: int, d: int, k: int)
    requires n > 0 && 0 <= k < n
    ensures (n * d + k) / n == d && (n * d + k) % n == k
  {
    var x := n * d + k;
    var q, r := x / n, x % n;
    assert x == n * q + r && 0 <= r < n;
    assert n * (q - d) == k - r && n * (d - q) == r - k;
    if q > d {
      TimesMore(n, q - d);
    } else if q < d {
      TimesMore(n, d - q);
    }
  }

  lemma TimesMore(n: int, m: int)
    requires n > 0 && m >= 1
    ensures n * m >= n
  {
  }

  lemma DivisionOrdered(n: int, s: int, t: int)
    requires n > 0 && s <= t
    ensures s / n <= t / n
  {
    var q, r := s / n, t / n;
    assert s == n * q + s % n && t == n * r + t % n && n * (q - r) == n * q - n * r;
    if r < q {
      TimesMore(n, q - r);
    }
  }

  lemma TimesOrdered(n: int, d: int, e: int)
    requires n > 0 && d < e
    ensures n * d < n * e
  {
    TimesMore(n, e - d);
    assert n * (e - d) == n * e - n * d;
  }

  lemma EqualDaysClock(length: int, offset: int, work: int -> Option<Interval>, horizon: int)
    requires length > 0
    ensures ValidClock(EqualDays(length, offset, work, horizon))
  {
    var c := EqualDays(length, offset, work, horizon);
    forall d, e, k | d < e ensures c.resolve(d, k) < c.resolve(e, k) {
      TimesOrdered(length, d, e);
    }
    forall t ensures c.resolve(c.date(t), c.clock(t)) == t {
      assert length * ((t + offset) / length) + (t + offset) % length == t + offset;
    }
    forall d, t ensures c.date(c.resolve(d, c.clock(t))) == d && c.clock(c.resolve(d, c.clock(t))) == c.clock(t) {
      ShownAgain(length, offset, d, (t + offset) % length);
    }
  }

  lemma ShownAgain(length: int, offset: int, d: int, k: int)
    requires length > 0 && 0 <= k < length
    ensures (length * d + k - offset + offset) / length == d && (length * d + k - offset + offset) % length == k
  {
    DivisionUnique(length, d, k);
    assert length * d + k - offset + offset == length * d + k;
  }

  /** Such a calendar is valid if its working intervals are. */
  lemma EqualDaysValid(length: int, offset: int, work: int -> Option<Interval>, horizon: int)
    requires length > 0
    requires forall d :: work(d).Some? ==>
               work(d).value.start < work(d).value.end
               && (work(d).value.start + offset) / length == d && (work(d).value.end - 1 + offset) / length == d
    ensures Valid(EqualDays(length, offset, work, horizon)) && ValidClock(EqualDays(length, offset, work, horizon))
  {
    var c := EqualDays(length, offset, work, horizon);
    forall s, t | s <= t ensures c.date(s) <= c.date(t) {
      DivisionOrdered(length, s + offset, t + offset);
    }
    EqualDaysClock(length, offset, work, horizon);
  }
}
