/** Business time: working intervals per local day, elapsed business time, business-time
    addition and the fixed sprint cadence. Instants and durations are integer microseconds. */
module BusinessCalendar {

  datatype Option<+T> = None | Some(value: T)

  datatype Interval = Interval(start: int, end: int)

  /** A team calendar. `date` is the local date of an instant, `work` the working interval of a
      local date, `resolve` the instant of a local clock on a local date. Nothing is known about
      dates after `horizon`: the calendar refuses to answer there. */
  datatype Calendar = Calendar(
    date: int -> int,
    work: int -> Option<Interval>,
    horizon: int,
    clock: int -> int,
    resolve: (int, int) -> int)

  /** What the zone promises of dates: they never run backwards, and a working interval is
      non-empty and lies inside its own local day. */
  ghost predicate Valid(c: Calendar) {
    && (forall s, t :: s <= t ==> c.date(s) <= c.date(t))
    && (forall d :: c.work(d).Some? ==>
          var i := c.work(d).value;
          i.start < i.end && c.date(i.start) == d && c.date(i.end - 1) == d)
  }

  /** What the zone promises of clocks: a local clock names one instant a day, later on later days, and a
      clock some instant shows is shown again, on any day, at the instant it names there. */
  ghost predicate ValidClock(c: Calendar) {
    && (forall d, e, k :: d < e ==> c.resolve(d, k) < c.resolve(e, k))
    && (forall t :: c.resolve(c.date(t), c.clock(t)) == t)
    && (forall d, t :: c.date(c.resolve(d, c.clock(t))) == d && c.clock(c.resolve(d, c.clock(t))) == c.clock(t))
  }

  predicate Working(c: Calendar, t: int) {
    var w := c.work(c.date(t));
    w.Some? && w.value.start <= t < w.value.end
  }

  /** Reference meaning of business time: how many working microseconds lie in [s, t). */
  ghost function Count(c: Calendar, s: int, t: int): nat
    decreases t - s
  {
    if t <= s then 0 else Count(c, s, t - 1) + if Working(c, t - 1) then 1 else 0
  }

  /** The working microseconds of [s, t) on local dates lo up to, not including, hi. */
  ghost function CountDays(c: Calendar, s: int, t: int, lo: int, hi: int): nat
    decreases t - s
  {
    if t <= s then 0
    else CountDays(c, s, t - 1, lo, hi) + if Working(c, t - 1) && lo <= c.date(t - 1) < hi then 1 else 0
  }

  // ---------- Laws of the reference count ----------

  /** Elapsed business time is additive over adjacent intervals. */
  lemma {:induction false} CountAdds(c: Calendar, s: int, m: int, t: int)
    requires s <= m <= t
    ensures Count(c, s, t) == Count(c, s, m) + Count(c, m, t)
    decreases t - m
  {
    if m < t {
      CountAdds(c, s, m, t - 1);
    }
  }

  /** Business time never exceeds calendar time. */
  lemma {:induction false} CountAtMostCalendar(c: Calendar, s: int, t: int)
    requires s <= t
    ensures Count(c, s, t) <= t - s
    decreases t - s
  {
    if s < t {
      CountAtMostCalendar(c, s, t - 1);
    }
  }

  /** Business time never runs backwards. */
  lemma {:induction false} CountGrows(c: Calendar, s: int, t: int, u: int)
    requires t <= u
    ensures Count(c, s, t) <= Count(c, s, u)
    decreases u - t
  {
    if t < u {
      CountGrows(c, s, t, u - 1);
    }
  }

  lemma {:induction false} CountIdle(c: Calendar, s: int, t: int)
    requires forall u :: s <= u < t ==> !Working(c, u)
    ensures Count(c, s, t) == 0
    decreases t - s
  {
    if s < t {
      CountIdle(c, s, t - 1);
    }
  }

  lemma {:induction false} CountBusy(c: Calendar, s: int, t: int)
    requires s <= t
    requires forall u :: s <= u < t ==> Working(c, u)
    ensures Count(c, s, t) == t - s
    decreases t - s
  {
    if s < t {
      CountBusy(c, s, t - 1);
    }
  }

  lemma WorkingInside(c: Calendar, d: int, u: int)
    requires Valid(c) && c.work(d).Some?
    requires c.work(d).value.start <= u < c.work(d).value.end
    ensures c.date(u) == d && Working(c, u)
  {
    assert c.date(c.work(d).value.start) <= c.date(u) <= c.date(c.work(d).value.end - 1);
  }

  lemma CountInterval(c: Calendar, d: int, s: int, t: int)
    requires Valid(c) && c.work(d).Some?
    requires c.work(d).value.start <= s <= t <= c.work(d).value.end
    ensures Count(c, s, t) == t - s
  {
    forall u | s <= u < t ensures Working(c, u) {
      WorkingInside(c, d, u);
    }
    CountBusy(c, s, t);
  }

  lemma {:induction false} CountDaysJoin(c: Calendar, s: int, t: int, lo: int, mid: int, hi: int)
    requires lo <= mid <= hi
    ensures CountDays(c, s, t, lo, hi) == CountDays(c, s, t, lo, mid) + CountDays(c, s, t, mid, hi)
    decreases t - s
  {
    if s < t {
      CountDaysJoin(c, s, t - 1, lo, mid, hi);
    }
  }

  lemma {:induction false} CountDaysAll(c: Calendar, s: int, t: int, lo: int, hi: int)
    requires forall u :: s <= u < t ==> lo <= c.date(u) < hi
    ensures CountDays(c, s, t, lo, hi) == Count(c, s, t)
    decreases t - s
  {
    if s < t {
      assert lo <= c.date(t - 1) < hi;
      CountDaysAll(c, s, t - 1, lo, hi);
    }
  }

  lemma {:induction false} CountDaysEmpty(c: Calendar, s: int, t: int, lo: int)
    ensures CountDays(c, s, t, lo, lo) == 0
    decreases t - s
  {
    if s < t {
      CountDaysEmpty(c, s, t - 1, lo);
    }
  }

  /** One day's share is exactly the overlap of the interval with that day's working interval. */
  lemma {:induction false} CountOneDay(c: Calendar, s: int, t: int, d: int)
    requires Valid(c) && s <= t
    ensures CountDays(c, s, t, d, d + 1) ==
            if c.work(d).None? then 0 else Intersection(Interval(s, t), c.work(d).value)
    decreases t - s
  {
    if s < t {
      CountOneDay(c, s, t - 1, d);
      if c.work(d).Some? && c.work(d).value.start <= t - 1 < c.work(d).value.end {
        WorkingInside(c, d, t - 1);
      }
    }
  }

  // ---------- Operations ----------

  function Intersection(left: Interval, right: Interval): (r: nat) {
    var start := if left.start >= right.start then left.start else right.start;
    var end := if left.end <= right.end then left.end else right.end;
    if end >= start then end - start else 0
  }

  /** The first working instant at or after `t`; None when the horizon is reached first. */
  method NextWorkingInstant(c: Calendar, t: int) returns (r: Option<int>)
    requires Valid(c)
    ensures r.Some? ==> t <= r.value && Working(c, r.value) && c.date(r.value) <= c.horizon
    ensures r.Some? ==> forall u :: t <= u < r.value ==> !Working(c, u)
    ensures r.None? <==> forall u :: t <= u && c.date(u) <= c.horizon ==> !Working(c, u)
  {
    var day := c.date(t);
    if day > c.horizon {
      assert forall u :: t <= u ==> c.date(u) >= day;
      return None;
    }
    while true
      invariant c.date(t) <= day <= c.horizon
      invariant forall u :: t <= u && c.date(u) < day ==> !Working(c, u)
      decreases c.horizon - day
    {
      var interval := c.work(day);
      if interval.Some? {
        if t < interval.value.start {
          WorkingInside(c, day, interval.value.start);
          assert forall u :: t <= u < interval.value.start ==> c.date(u) <= day;
          return Some(interval.value.start);
        }
        if t < interval.value.end {
          WorkingInside(c, day, t);
          return Some(t);
        }
      }
      assert forall u :: t <= u && c.date(u) == day ==> !Working(c, u);
      if day >= c.horizon {
        return None;
      }
      day := day + 1;
    }
  }

  /** Business time elapsed over [s, t): the number of working microseconds it holds. */
  method Elapsed(c: Calendar, s: int, t: int) returns (r: Option<nat>)
    requires Valid(c) && s <= t
    ensures r.Some? ==> r.value == Count(c, s, t) <= t - s
    ensures r.None? <==> s < t && c.date(t - 1) > c.horizon
  {
    CountAtMostCalendar(c, s, t);
    if s == t {
      return Some(0);
    }
    var business: nat := 0;
    var day := c.date(s);
    var first, final := day, c.date(t - 1);
    CountDaysEmpty(c, s, t, day);
    while day <= final
      invariant first <= day <= final + 1
      invariant day - 1 <= c.horizon || day == first
      invariant business == CountDays(c, s, t, first, day)
      decreases final - day
    {
      if day > c.horizon {
        return None;
      }
      var working := c.work(day);
      CountOneDay(c, s, t, day);
      CountDaysJoin(c, s, t, first, day, day + 1);
      if working.Some? {
        business := business + Intersection(Interval(s, t), working.value);
      }
      day := day + 1;
    }
    CountDaysAll(c, s, t, first, final + 1);
    return Some(business);
  }

  /** t is where the `duration`-th working microsecond after `s` ends: the least instant at which
      exactly `duration` has elapsed. */
  ghost predicate IsAddition(c: Calendar, s: int, duration: nat, t: int) {
    && s <= t
    && Count(c, s, t) == duration
    && (forall u :: s <= u < t ==> Count(c, s, u) < duration)
    && (duration > 0 ==> c.date(t - 1) <= c.horizon)
  }

  /** Inside the horizon fewer than `duration` working microseconds follow `s`. */
  ghost predicate Exhausted(c: Calendar, s: int, duration: nat) {
    duration > 0 && forall t :: s < t && c.date(t - 1) <= c.horizon ==> Count(c, s, t) < duration
  }

  /** Business-time addition: the inverse of Elapsed, refused exactly when the horizon holds too
      little working time. */
  method Add(c: Calendar, s: int, duration: nat) returns (r: Option<int>)
    requires Valid(c)
    ensures r.Some? ==> IsAddition(c, s, duration, r.value)
    ensures r.None? <==> Exhausted(c, s, duration)
  {
    if duration == 0 {
      return Some(s);
    }
    var remaining: nat := duration;
    var next := NextWorkingInstant(c, s);
    if next.None? {
      NoMoreWork(c, s, s, duration);
      return None;
    }
    var cursor := next.value;
    CountIdle(c, s, cursor);
    while true
      invariant s <= cursor && Working(c, cursor) && c.date(cursor) <= c.horizon
      invariant remaining > 0 && Count(c, s, cursor) + remaining == duration
      decreases remaining
    {
      var interval := c.work(c.date(cursor)).value;
      var available := interval.end - cursor;
      if remaining <= available {
        var t := cursor + remaining;
        AdditionEnds(c, s, cursor, duration, t);
        return Some(t);
      }
      CarryDay(c, s, cursor);
      remaining := remaining - available;
      next := NextWorkingInstant(c, interval.end);
      if next.None? {
        NoMoreWork(c, s, interval.end, duration);
        return None;
      }
      CarryNight(c, s, interval.end, next.value);
      cursor := next.value;
    }
  }

  lemma AdditionEnds(c: Calendar, s: int, cursor: int, duration: nat, t: int)
    requires Valid(c) && s <= cursor < t && Working(c, cursor) && c.date(cursor) <= c.horizon
    requires t <= c.work(c.date(cursor)).value.end && Count(c, s, cursor) + (t - cursor) == duration
    ensures IsAddition(c, s, duration, t) && !Exhausted(c, s, duration)
  {
    CountInterval(c, c.date(cursor), cursor, t);
    CountInterval(c, c.date(cursor), cursor, t - 1);
    CountAdds(c, s, cursor, t);
    CountAdds(c, s, cursor, t - 1);
    NotBefore(c, s, t - 1, duration);
    WorkingInside(c, c.date(cursor), t - 1);
  }

  lemma NotBefore(c: Calendar, s: int, last: int, duration: nat)
    requires s <= last && Count(c, s, last) < duration
    ensures forall u :: s <= u <= last ==> Count(c, s, u) < duration
  {
    forall u | s <= u <= last ensures Count(c, s, u) < duration {
      CountAdds(c, s, u, last);
    }
  }

  lemma CarryDay(c: Calendar, s: int, cursor: int)
    requires Valid(c) && s <= cursor && Working(c, cursor)
    ensures var end := c.work(c.date(cursor)).value.end;
            Count(c, s, end) == Count(c, s, cursor) + end - cursor
  {
    var end := c.work(c.date(cursor)).value.end;
    CountInterval(c, c.date(cursor), cursor, end);
    CountAdds(c, s, cursor, end);
  }

  lemma CarryNight(c: Calendar, s: int, end: int, next: int)
    requires s <= end <= next && forall u :: end <= u < next ==> !Working(c, u)
    ensures Count(c, s, next) == Count(c, s, end)
  {
    CountIdle(c, end, next);
    CountAdds(c, s, end, next);
  }

  /** If nothing works at or after m inside the horizon, no elapsed time exceeds that up to m. */
  lemma NoMoreWork(c: Calendar, s: int, m: int, duration: nat)
    requires Valid(c) && s <= m && Count(c, s, m) < duration
    requires forall u :: m <= u && c.date(u) <= c.horizon ==> !Working(c, u)
    ensures Exhausted(c, s, duration)
  {
    forall t | s < t && c.date(t - 1) <= c.horizon ensures Count(c, s, t) <= Count(c, s, m) {
      if t <= m {
        CountAdds(c, s, t, m);
      } else {
        forall u | m <= u < t ensures !Working(c, u) {
          assert c.date(u) <= c.date(t - 1);
        }
        CountIdle(c, m, t);
        CountAdds(c, s, m, t);
      }
    }
  }

  /** At most one instant is the sum, so Add is a function of its arguments. */
  lemma AdditionUnique(c: Calendar, s: int, duration: nat, t: int, u: int)
    requires IsAddition(c, s, duration, t) && IsAddition(c, s, duration, u)
    ensures t == u
  {
    assert t < u ==> Count(c, s, t) < duration;
    assert u < t ==> Count(c, s, u) < duration;
  }

  /** Adding in two steps is adding once, for every pair of durations, zero included. */
  lemma AdditionComposes(c: Calendar, s: int, d1: nat, m: int, d2: nat, t: int)
    requires Valid(c)
    requires IsAddition(c, s, d1, m) && IsAddition(c, m, d2, t)
    ensures IsAddition(c, s, d1 + d2, t)
  {
    CountAdds(c, s, m, t);
    forall u | s <= u < t ensures Count(c, s, u) < d1 + d2 {
      if u < m {
      } else {
        CountAdds(c, s, m, u);
      }
    }
  }

  /** Elapsed then Add returns to the last instant that closed a working microsecond. */
  lemma ElapsedThenAdd(c: Calendar, s: int, t: int, back: int)
    requires Valid(c) && s < t && Working(c, t - 1) && c.date(t - 1) <= c.horizon
    requires IsAddition(c, s, Count(c, s, t), back)
    ensures back == t
  {
    forall u | s <= u < t ensures Count(c, s, u) < Count(c, s, t) {
      CountAdds(c, s, u, t - 1);
    }
    AdditionUnique(c, s, Count(c, s, t), back, t);
  }

  // ---------- Fixed sprint cadence ----------

  function CadenceBoundary(c: Calendar, anchor: int, cadenceDays: nat, ordinal: nat): (t: int) {
    if ordinal == 0 then anchor
    else c.resolve(c.date(anchor) + cadenceDays * ordinal, c.clock(anchor))
  }

  /** Boundary k falls on the day cadenceDays * k days after the anchor's, at the anchor's local clock. */
  lemma CadenceDay(c: Calendar, anchor: int, cadenceDays: nat, k: nat)
    requires ValidClock(c)
    ensures var t := CadenceBoundary(c, anchor, cadenceDays, k);
            c.date(t) == c.date(anchor) + cadenceDays * k && c.clock(t) == c.clock(anchor)
  {
    if k > 0 {
      ClockShown(c, c.date(anchor) + cadenceDays * k, anchor);
    }
  }

  lemma ClockShown(c: Calendar, d: int, t: int)
    requires ValidClock(c)
    ensures c.date(c.resolve(d, c.clock(t))) == d && c.clock(c.resolve(d, c.clock(t))) == c.clock(t)
  {
  }

  /** No boundary comes before the first. */
  lemma AnchorFirst(c: Calendar, anchor: int, cadenceDays: nat, k: nat)
    requires ValidClock(c) && cadenceDays > 0
    ensures anchor <= CadenceBoundary(c, anchor, cadenceDays, k)
  {
    if k > 0 {
      CadenceIncreases(c, anchor, cadenceDays, 0, k);
    }
  }

  lemma LaterDayLater(c: Calendar, from: int, to: int, clock: int)
    requires ValidClock(c) && from < to
    ensures c.resolve(from, clock) < c.resolve(to, clock)
  {
  }

  /** Sprint boundaries advance strictly with their ordinal. */
  lemma CadenceIncreases(c: Calendar, anchor: int, cadenceDays: nat, i: nat, j: nat)
    requires ValidClock(c) && cadenceDays > 0 && i < j
    ensures CadenceBoundary(c, anchor, cadenceDays, i) < CadenceBoundary(c, anchor, cadenceDays, j)
  {
    assert cadenceDays * i < cadenceDays * j by {
      assert cadenceDays * j == cadenceDays * i + cadenceDays * (j - i);
      assert cadenceDays * (j - i) > 0;
    }
    LaterDayLater(c, c.date(anchor) + cadenceDays * i, c.date(anchor) + cadenceDays * j, c.clock(anchor));
    assert i == 0 ==> c.date(anchor) + cadenceDays * i == c.date(anchor);
    assert c.resolve(c.date(anchor), c.clock(anchor)) == anchor;
  }
}
