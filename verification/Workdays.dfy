/** Workday starts: the scans that bound a tick and that trigger daily decisions. */
module Workdays {
  import opened BusinessCalendar

  ghost predicate IsStart(c: Calendar, w: int) {
    c.work(c.date(w)).Some? && c.work(c.date(w)).value.start == w
  }

  /** The start of the first local day, from `day` to `final`, whose working time starts in [lo, hi). */
  function FirstStart(c: Calendar, lo: int, hi: int, day: int, final: int): Option<int>
    decreases final - day
  {
    if day > final then None
    else if c.work(day).Some? && lo <= c.work(day).value.start < hi then Some(c.work(day).value.start)
    else FirstStart(c, lo, hi, day + 1, final)
  }

  method ScanStarts(c: Calendar, lo: int, hi: int, from: int, final: int) returns (r: Option<int>)
    ensures r == FirstStart(c, lo, hi, from, final)
  {
    var day := from;
    while day <= final
      invariant FirstStart(c, lo, hi, from, final) == FirstStart(c, lo, hi, day, final)
      decreases final - day
    {
      var interval := c.work(day);
      if interval.Some? && lo <= interval.value.start < hi {
        return Some(interval.value.start);
      }
      day := day + 1;
    }
    return None;
  }

  /** r is the least workday start in [lo, hi) on the days from `day` to `final`. */
  ghost predicate LeastStart(c: Calendar, lo: int, hi: int, day: int, final: int, r: Option<int>) {
    && (r.Some? ==> lo <= r.value < hi && IsStart(c, r.value))
    && (forall w :: IsStart(c, w) && lo <= w < hi && day <= c.date(w) <= final ==> r.Some? && r.value <= w)
  }

  lemma {:induction false} FirstStartLeast(c: Calendar, lo: int, hi: int, day: int, final: int)
    requires Valid(c)
    ensures LeastStart(c, lo, hi, day, final, FirstStart(c, lo, hi, day, final))
    decreases final - day
  {
    if day <= final {
      if c.work(day).Some? && lo <= c.work(day).value.start < hi {
        StartHere(c, lo, hi, day, final);
      } else {
        FirstStartLeast(c, lo, hi, day + 1, final);
        NoStartHere(c, lo, hi, day, final, FirstStart(c, lo, hi, day + 1, final));
      }
    }
  }

  lemma StartHere(c: Calendar, lo: int, hi: int, day: int, final: int)
    requires Valid(c) && c.work(day).Some? && lo <= c.work(day).value.start < hi
    ensures LeastStart(c, lo, hi, day, final, Some(c.work(day).value.start))
  {
    var u := c.work(day).value.start;
    WorkingInside(c, day, u);
    forall w | IsStart(c, w) && lo <= w < hi && day <= c.date(w) <= final ensures u <= w {
      StartsOrdered(c, u, w);
    }
  }

  lemma NoStartHere(c: Calendar, lo: int, hi: int, day: int, final: int, r: Option<int>)
    requires LeastStart(c, lo, hi, day + 1, final, r) && !(c.work(day).Some? && lo <= c.work(day).value.start < hi)
    ensures LeastStart(c, lo, hi, day, final, r)
  {
  }

  lemma StartsOrdered(c: Calendar, u: int, w: int)
    requires Valid(c) && c.date(u) <= c.date(w) && IsStart(c, u) && IsStart(c, w)
    ensures u <= w
  {
  }

  // ---------- The workday a tick decides for ----------

  /** The workday start due over [cursor, asOf), if any. */
  function WorkdayBoundary(c: Calendar, cursor: int, asOf: int): Option<int> {
    if asOf <= cursor then None else FirstStart(c, cursor, asOf, c.date(cursor), c.date(asOf - 1))
  }

  /** The workday start a tick must not run past: the first strictly inside (cursor, e). */
  function NextWorkday(c: Calendar, cursor: int, e: int): Option<int> {
    FirstStart(c, cursor + 1, e, c.date(cursor), c.date(e))
  }

  /** It is the least workday start in [cursor, asOf), and exists whenever there is one. */
  lemma WorkdayBoundaryLeast(c: Calendar, cursor: int, asOf: int)
    requires Valid(c)
    ensures var r := WorkdayBoundary(c, cursor, asOf);
            && (r.Some? ==> cursor <= r.value < asOf && IsStart(c, r.value))
            && (forall w :: IsStart(c, w) && cursor <= w < asOf ==> r.Some? && r.value <= w)
  {
    if cursor < asOf {
      FirstStartLeast(c, cursor, asOf, c.date(cursor), c.date(asOf - 1));
    }
  }

  lemma NextWorkdayLeast(c: Calendar, cursor: int, e: int)
    requires Valid(c)
    ensures var r := NextWorkday(c, cursor, e);
            && (r.Some? ==> cursor < r.value < e && IsStart(c, r.value))
            && (forall w :: IsStart(c, w) && cursor < w < e ==> r.Some? && r.value <= w)
  {
    FirstStartLeast(c, cursor + 1, e, c.date(cursor), c.date(e));
  }
}
