/**
 * Times of day as whole seconds since midnight, `strptime(s, "%H:%M:%S")`,
 * `strftime("%H:%M:%S")`, and the shift by a `timedelta` of seconds, of
 * which only the time of day is kept.
 */
module Clock {
  import opened Wrappers
  import opened Text

  const DaySeconds: nat := 86400

  /** `strftime("%H:%M:%S")`, each field zero-padded to two digits. */
  function Format(t: nat): (r: string)
    requires t < DaySeconds
    ensures |r| == 8
  {
    Pad2(t / 3600) + [':'] + Pad2(t % 3600 / 60) + [':'] + Pad2(t % 60)
  }

  /**
   * One `%H`, `%M` or `%S` field: one or two digits, at most `max`. (The
   * `%S` pattern also admits 60 and 61, which building the datetime then
   * rejects, so 59 is the bound for seconds as for minutes.)
   */
  function Field(s: string, max: nat): (r: Option<nat>)
    ensures r.Some? ==> r.value <= max
  {
    if 1 <= |s| <= 2 && AllDigits(s) && Value(s) <= max then Some(Value(s)) else None
  }

  /** `datetime.strptime(s, "%H:%M:%S")` reduced to its time of day; `None` where Python raises ValueError. */
  function Parse(s: string): (r: Option<nat>)
    ensures r.Some? ==> r.value < DaySeconds
  {
    var f := Fields(s, ':');
    if |f| != 3 then None
    else
      match (Field(f[0], 23), Field(f[1], 59), Field(f[2], 59))
      case (Some(h), Some(m), Some(sec)) => Some(h * 3600 + m * 60 + sec)
      case _ => None
  }

  /** The time of day `delta` seconds after `t`, wrapping around midnight. */
  function Shift(t: nat, delta: int): (r: nat)
    requires t < DaySeconds && -(DaySeconds as int) <= delta <= DaySeconds
    ensures r == if t + delta < 0 then t + delta + DaySeconds
                 else if t + delta < DaySeconds then t + delta
                 else t + delta - DaySeconds
  {
    (t + delta) % DaySeconds
  }

  /** Parsing a formatted time gives the time back. */
  lemma ParseFormat(t: nat)
    requires t < DaySeconds
    ensures Parse(Format(t)) == Some(t)
  {
    var h, m, s := Pad2(t / 3600), Pad2(t % 3600 / 60), Pad2(t % 60);
    NoSeparatorInDigits(h, ':');
    NoSeparatorInDigits(m, ':');
    NoSeparatorInDigits(s, ':');
    assert Format(t) == h + [':'] + (m + [':'] + s);
    FieldsOfJoin(h, ':', m + [':'] + s);
    FieldsOfJoin(m, ':', s);
    FieldsOfPlain(s, ':');
    assert Fields(Format(t), ':') == [h, m, s];
    assert (t / 3600) * 3600 + (t % 3600 / 60) * 60 + t % 60 == t;
  }

  /** Distinct times format differently. */
  lemma FormatInjective(a: nat, b: nat)
    requires a < DaySeconds && b < DaySeconds && Format(a) == Format(b)
    ensures a == b
  {
    ParseFormat(a);
    ParseFormat(b);
  }

  /** Numeric order of times is the lexicographic order of (hour, minute, second). */
  lemma SecondsOrder(a: nat, b: nat)
    requires a < DaySeconds && b < DaySeconds
    ensures a < b <==>
      a / 3600 < b / 3600 ||
      (a / 3600 == b / 3600 && (a % 3600 / 60 < b % 3600 / 60 ||
        (a % 3600 / 60 == b % 3600 / 60 && a % 60 < b % 60)))
  {
    assert a == (a / 3600) * 3600 + (a % 3600 / 60) * 60 + a % 60;
    assert b == (b / 3600) * 3600 + (b % 3600 / 60) * 60 + b % 60;
    assert (a % 3600 / 60) * 60 + a % 60 < 3600;
    assert (b % 3600 / 60) * 60 + b % 60 < 3600;
  }

  /** Formatted times sort as the times do, so string range filters on them are time ranges. */
  lemma FormatOrder(a: nat, b: nat)
    requires a < DaySeconds && b < DaySeconds
    ensures Below(Format(a), Format(b)) <==> a < b
  {
    var ta := [':'] + Pad2(a % 3600 / 60) + [':'] + Pad2(a % 60);
    var tb := [':'] + Pad2(b % 3600 / 60) + [':'] + Pad2(b % 60);
    assert Format(a) == Pad2(a / 3600) + ta && Format(b) == Pad2(b / 3600) + tb;
    BelowConcat(Pad2(a / 3600), ta, Pad2(b / 3600), tb);
    Pad2Order(a / 3600, b / 3600);
    Pad2Order(b / 3600, a / 3600);
    assert Pad2(a / 3600) == Pad2(b / 3600) <==> a / 3600 == b / 3600;
    var ua := Pad2(a % 3600 / 60) + ([':'] + Pad2(a % 60));
    var ub := Pad2(b % 3600 / 60) + ([':'] + Pad2(b % 60));
    assert ta == [':'] + ua && tb == [':'] + ub;
    BelowConcat([':'], ua, [':'], ub);
    BelowIrreflexive([':']);
    BelowConcat(Pad2(a % 3600 / 60), [':'] + Pad2(a % 60), Pad2(b % 3600 / 60), [':'] + Pad2(b % 60));
    Pad2Order(a % 3600 / 60, b % 3600 / 60);
    Pad2Order(b % 3600 / 60, a % 3600 / 60);
    assert Pad2(a % 3600 / 60) == Pad2(b % 3600 / 60) <==> a % 3600 / 60 == b % 3600 / 60;
    BelowConcat([':'], Pad2(a % 60), [':'], Pad2(b % 60));
    Pad2Order(a % 60, b % 60);
    SecondsOrder(a, b);
  }

  /** The inclusive form of `FormatOrder`, as a `$lte` filter uses it. */
  lemma FormatAtMost(a: nat, b: nat)
    requires a < DaySeconds && b < DaySeconds
    ensures AtMost(Format(a), Format(b)) <==> a <= b
  {
    FormatOrder(a, b);
    if Format(a) == Format(b) {
      FormatInjective(a, b);
    }
  }
}
