/**
 * The correlation window of one primary event: the date range and the
 * time range (each inclusive, each compared as strings) within which a
 * candidate alarm counts as co-occurring.
 */
module Window {
  import opened Wrappers
  import opened Text
  import Calendar
  import Clock

  datatype Window = Window(startDate: string, startTime: string, endDate: string, endTime: string)

  /** How far the window reaches on either side of the event, in seconds. */
  const Reach: int := 30
  /** `time_below`, 00:00:29: at or below it the start date is the day before. */
  const LateStart: int := 29
  /** `time_above`, 23:59:30: at or above it the end date is the day after. */
  const EarlyEnd: int := 86370

  /**
   * The window for an event stamped `dateStr` `timeStr`; `None` where the
   * source raises: a field `strptime` rejects, or a shifted date outside
   * years 1 to 9999.
   */
  function Resolve(dateStr: string, timeStr: string): (r: Option<Window>)
    ensures r.Some? ==> Clock.Parse(timeStr).Some? && Calendar.Parse(dateStr).Some?
  {
    match (Clock.Parse(timeStr), Calendar.Parse(dateStr))
    case (Some(t), Some(d)) => At(d, t)
    case _ => None
  }

  /** The window around date `d`, `t` seconds after midnight. */
  function At(d: Calendar.Date, t: nat): (r: Option<Window>)
    requires Calendar.Valid(d) && t < Clock.DaySeconds
    ensures r.Some? ==> r.value.startDate == Calendar.Format(d) || r.value.endDate == Calendar.Format(d)
    ensures r.None? ==> Calendar.Prev(d).None? || Calendar.Next(d).None?
  {
    var lo := Clock.Format(Clock.Shift(t, -Reach));
    var hi := Clock.Format(Clock.Shift(t, Reach));
    var day := Calendar.Format(d);
    if t <= LateStart then
      match Calendar.Prev(d)
      case Some(p) => Some(Window(Calendar.Format(p), lo, day, hi))
      case None => None
    else if t >= EarlyEnd then
      match Calendar.Next(d)
      case Some(n) => Some(Window(day, lo, Calendar.Format(n), hi))
      case None => None
    else Some(Window(day, lo, day, hi))
  }

  lemma AtTimes(d: Calendar.Date, t: nat, w: Window)
    requires Calendar.Valid(d) && t < Clock.DaySeconds && At(d, t) == Some(w)
    ensures w.startTime == Clock.Format(Clock.Shift(t, -Reach))
    ensures w.endTime == Clock.Format(Clock.Shift(t, Reach))
  {
  }

  /** Resolution fails exactly on a malformed stamp or a date shifted past the calendar's ends. */
  lemma ResolveFails(dateStr: string, timeStr: string)
    ensures Resolve(dateStr, timeStr).None? <==>
      Clock.Parse(timeStr).None? || Calendar.Parse(dateStr).None? ||
      (Clock.Parse(timeStr).value <= LateStart && Calendar.Parse(dateStr).value == Calendar.First) ||
      (Clock.Parse(timeStr).value >= EarlyEnd && Calendar.Parse(dateStr).value == Calendar.Last)
  {
  }

  /**
   * Window dates: the event's own date, except that the start moves to the
   * previous calendar day at or below 00:00:29, and the end to the next
   * calendar day at or above 23:59:30 (`Calendar.PrevIsAdjacent` and
   * `Calendar.NextIsAdjacent` say these are the neighbouring days). Never both.
   */
  lemma WindowDates(d: Calendar.Date, t: nat)
    requires Calendar.Valid(d) && t < Clock.DaySeconds && At(d, t).Some?
    ensures var w := At(d, t).value;
      && (LateStart < t < EarlyEnd ==> w.startDate == w.endDate == Calendar.Format(d))
      && (t <= LateStart ==> w.startDate == Calendar.Format(Calendar.Prev(d).value) && w.endDate == Calendar.Format(d))
      && (t >= EarlyEnd ==> w.startDate == Calendar.Format(d) && w.endDate == Calendar.Format(Calendar.Next(d).value))
      && Below(w.startDate, w.endDate) == (t <= LateStart || t >= EarlyEnd)
  {
    var w := At(d, t).value;
    if t <= LateStart {
      Calendar.FormatOrder(Calendar.Prev(d).value, d);
    } else if t >= EarlyEnd {
      Calendar.FormatOrder(d, Calendar.Next(d).value);
    } else {
      BelowIrreflexive(w.startDate);
    }
  }

  /**
   * Away from midnight the time bounds are exactly 30 seconds either side:
   * a zero-padded candidate time passes both string bounds iff it is within
   * 30 seconds of the event.
   */
  lemma WindowTimes(d: Calendar.Date, t: nat, w: Window, u: nat)
    requires Calendar.Valid(d) && Reach <= t < Clock.DaySeconds - Reach && At(d, t) == Some(w)
    requires u < Clock.DaySeconds
    ensures AtMost(w.startTime, Clock.Format(u)) && AtMost(Clock.Format(u), w.endTime) <==> t - Reach <= u <= t + Reach
  {
    AtTimes(d, t, w);
    TimeBounds(t - Reach, u, t + Reach);
  }

  /** Between two formatted bounds lie exactly the formatted times between the bounds. */
  lemma TimeBounds(a: nat, u: nat, b: nat)
    requires a < Clock.DaySeconds && u < Clock.DaySeconds && b < Clock.DaySeconds
    ensures AtMost(Clock.Format(a), Clock.Format(u)) && AtMost(Clock.Format(u), Clock.Format(b)) <==> a <= u <= b
  {
    Clock.FormatAtMost(a, u);
    Clock.FormatAtMost(u, b);
    BothIff(AtMost(Clock.Format(a), Clock.Format(u)), a <= u, AtMost(Clock.Format(u), Clock.Format(b)), u <= b);
  }

  /** Two equivalences give the equivalence of their conjunctions, stated apart from any formatted time. */
  lemma BothIff(a: bool, p: bool, b: bool, q: bool)
    requires a == p && b == q
    ensures (a && b) == (p && q)
  {
  }

  /**
   * Whenever a date shift happens the time bounds wrap past midnight: the
   * lower time string sorts after the upper one, so the time condition,
   * checked on its own, admits no candidate at all.
   */
  lemma WrappedWindowAdmitsNothing(d: Calendar.Date, t: nat, w: Window, x: string)
    requires Calendar.Valid(d) && t < Clock.DaySeconds && At(d, t) == Some(w)
    requires t <= LateStart || t >= EarlyEnd
    ensures Below(w.endTime, w.startTime) && !(AtMost(w.startTime, x) && AtMost(x, w.endTime))
  {
    var lo, hi := Clock.Shift(t, -Reach), Clock.Shift(t, Reach);
    AtTimes(d, t, w);
    assert hi < lo;
    Clock.FormatOrder(hi, lo);
    InvertedBoundsAdmitNothing(w.startTime, w.endTime, x);
  }
}
