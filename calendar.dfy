/**
 * Gregorian calendar dates as Python's `datetime.date` holds them (years 1
 * to 9999), the day before and the day after, `strptime(s, "%Y-%m-%d")` and
 * `strftime("%Y-%m-%d")`.
 */
module Calendar {
  import opened Wrappers
  import opened Text

  datatype Date = Date(year: nat, month: nat, day: nat)

  predicate IsLeap(y: nat)
  {
    y % 4 == 0 && (y % 100 != 0 || y % 400 == 0)
  }

  function DaysInMonth(y: nat, m: nat): (n: nat)
    requires 1 <= m <= 12
    ensures 28 <= n <= 31
  {
    if m == 2 then (if IsLeap(y) then 29 else 28)
    else if m == 4 || m == 6 || m == 9 || m == 11 then 30
    else 31
  }

  /** A date Python can represent. */
  predicate Valid(d: Date)
  {
    1 <= d.year <= 9999 && 1 <= d.month <= 12 && 1 <= d.day <= DaysInMonth(d.year, d.month)
  }

  const First := Date(1, 1, 1)
  const Last := Date(9999, 12, 31)

  /** Chronological order. */
  predicate Before(a: Date, b: Date)
  {
    a.year < b.year || (a.year == b.year && (a.month < b.month || (a.month == b.month && a.day < b.day)))
  }

  /** `d - timedelta(days=1)`; `None` where Python raises OverflowError. */
  function Prev(d: Date): (r: Option<Date>)
    requires Valid(d)
    ensures r.None? <==> d == First
    ensures r.Some? ==> Valid(r.value) && Before(r.value, d)
  {
    if d.day > 1 then Some(Date(d.year, d.month, d.day - 1))
    else if d.month > 1 then Some(Date(d.year, d.month - 1, DaysInMonth(d.year, d.month - 1)))
    else if d.year > 1 then Some(Date(d.year - 1, 12, 31))
    else None
  }

  /** `d + timedelta(days=1)`; `None` where Python raises OverflowError. */
  function Next(d: Date): (r: Option<Date>)
    requires Valid(d)
    ensures r.None? <==> d == Last
    ensures r.Some? ==> Valid(r.value) && Before(d, r.value)
  {
    if d.day < DaysInMonth(d.year, d.month) then Some(Date(d.year, d.month, d.day + 1))
    else if d.month < 12 then Some(Date(d.year, d.month + 1, 1))
    else if d.year < 9999 then Some(Date(d.year + 1, 1, 1))
    else None
  }

  /** No valid date lies strictly between `Prev(d)` and `d`. */
  lemma PrevIsAdjacent(d: Date, x: Date)
    requires Valid(d) && Valid(x) && d != First
    ensures !(Before(Prev(d).value, x) && Before(x, d))
  {
  }

  /** No valid date lies strictly between `d` and `Next(d)`. */
  lemma NextIsAdjacent(d: Date, x: Date)
    requires Valid(d) && Valid(x) && d != Last
    ensures !(Before(d, x) && Before(x, Next(d).value))
  {
  }

  lemma NextOfPrev(d: Date)
    requires Valid(d) && d != First
    ensures Next(Prev(d).value) == Some(d)
  {
  }

  lemma PrevOfNext(d: Date)
    requires Valid(d) && d != Last
    ensures Prev(Next(d).value) == Some(d)
  {
  }

  // ---------------------------------------------------------------------------
  // Text form
  // ---------------------------------------------------------------------------

  /** `strftime("%Y-%m-%d")`, zero-padded. */
  function Format(d: Date): (r: string)
    requires Valid(d)
    ensures |r| == 10
  {
    Pad4(d.year) + ['-'] + Pad2(d.month) + ['-'] + Pad2(d.day)
  }

  /** The `%m` field: one or two digits naming a month. */
  function MonthField(s: string): (r: Option<nat>)
    ensures r.Some? ==> 1 <= r.value <= 12
  {
    if 1 <= |s| <= 2 && AllDigits(s) && 1 <= Value(s) <= 12 then Some(Value(s)) else None
  }

  /** The `%d` field: one or two digits, or a space and a non-zero digit. */
  function DayField(s: string): (r: Option<nat>)
    ensures r.Some? ==> 1 <= r.value <= 31
  {
    if 1 <= |s| <= 2 && AllDigits(s) && 1 <= Value(s) <= 31 then Some(Value(s))
    else if |s| == 2 && s[0] == ' ' && IsDigit(s[1]) && s[1] != '0' then Some(DigitValue(s[1]))
    else None
  }

  /**
   * `datetime.strptime(s, "%Y-%m-%d")`: exactly four digits for the year,
   * then month and day fields; `None` where Python raises ValueError
   * (a malformed field, year 0, or a day past the end of its month).
   */
  function Parse(s: string): (r: Option<Date>)
    ensures r.Some? ==> Valid(r.value)
  {
    var f := Fields(s, '-');
    if |f| != 3 || |f[0]| != 4 || !AllDigits(f[0]) || Value(f[0]) < 1 then None
    else
      ValueBound(f[0]);
      match (MonthField(f[1]), DayField(f[2]))
      case (Some(m), Some(d)) =>
        if d <= DaysInMonth(Value(f[0]), m) then Some(Date(Value(f[0]), m, d)) else None
      case _ => None
  }

  /** Parsing a formatted date gives the date back. */
  lemma ParseFormat(d: Date)
    requires Valid(d)
    ensures Parse(Format(d)) == Some(d)
  {
    var y, m, dd := Pad4(d.year), Pad2(d.month), Pad2(d.day);
    NoSeparatorInDigits(y, '-');
    NoSeparatorInDigits(m, '-');
    NoSeparatorInDigits(dd, '-');
    assert Format(d) == y + ['-'] + (m + ['-'] + dd);
    FieldsOfJoin(y, '-', m + ['-'] + dd);
    FieldsOfJoin(m, '-', dd);
    FieldsOfPlain(dd, '-');
    assert Fields(Format(d), '-') == [y, m, dd];
  }

  /** Formatted dates sort as the dates do, so string range filters on them are date ranges. */
  lemma FormatOrder(a: Date, b: Date)
    requires Valid(a) && Valid(b)
    ensures Below(Format(a), Format(b)) <==> Before(a, b)
  {
    var ta := ['-'] + Pad2(a.month) + ['-'] + Pad2(a.day);
    var tb := ['-'] + Pad2(b.month) + ['-'] + Pad2(b.day);
    assert Format(a) == Pad4(a.year) + ta && Format(b) == Pad4(b.year) + tb;
    BelowConcat(Pad4(a.year), ta, Pad4(b.year), tb);
    Pad4Order(a.year, b.year);
    Pad4Order(b.year, a.year);
    assert Pad4(a.year) == Pad4(b.year) <==> a.year == b.year;
    var ua := Pad2(a.month) + (['-'] + Pad2(a.day));
    var ub := Pad2(b.month) + (['-'] + Pad2(b.day));
    assert ta == ['-'] + ua && tb == ['-'] + ub;
    BelowConcat(['-'], ua, ['-'], ub);
    BelowIrreflexive(['-']);
    BelowConcat(Pad2(a.month), ['-'] + Pad2(a.day), Pad2(b.month), ['-'] + Pad2(b.day));
    Pad2Order(a.month, b.month);
    Pad2Order(b.month, a.month);
    assert Pad2(a.month) == Pad2(b.month) <==> a.month == b.month;
    BelowConcat(['-'], Pad2(a.day), ['-'], Pad2(b.day));
    Pad2Order(a.day, b.day);
  }
}
