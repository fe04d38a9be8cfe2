/**
 * The date loop of `main`: the distinct non-empty event dates, sorted,
 * each handed to `process_day` once, with the returned counts summed into
 * `total_processed`. The tally and the output collection are shared by
 * every day of the run.
 */
module Job {
  import opened Wrappers
  import opened Text
  import opened Store
  import Correlation
  import Diagnostics
  import Day

  // ---------------------------------------------------------------------------
  // The dates to process
  // ---------------------------------------------------------------------------

  /** `d` added to a strictly increasing list, in its place, unless it is already there. */
  function Insert(d: string, s: seq<string>): (r: seq<string>)
    ensures |s| <= |r| <= |s| + 1
  {
    if s == [] then [d]
    else if d == s[0] then s
    else if Below(d, s[0]) then [d] + s
    else [s[0]] + Insert(d, s[1..])
  }

  lemma {:induction false} InsertSorted(d: string, s: seq<string>)
    requires StrictlyIncreasing(s)
    ensures StrictlyIncreasing(Insert(d, s))
    ensures forall x :: x in Insert(d, s) <==> x == d || x in s
  {
    if s != [] && d != s[0] && !Below(d, s[0]) {
      InsertSorted(d, s[1..]);
      var r := Insert(d, s);
      BelowTotal(d, s[0]);
      forall i, j | 0 <= i < j < |r| ensures Below(r[i], r[j]) {
        if i == 0 {
          assert r[j] in Insert(d, s[1..]);
          if r[j] != d {
            var k :| 1 <= k < |s| && s[k] == r[j];
          }
        }
      }
    } else if s != [] && d != s[0] {
      var r := Insert(d, s);
      forall i, j | 0 <= i < j < |r| ensures Below(r[i], r[j]) {
        if i == 0 && j > 1 {
          BelowTransitive(d, s[0], s[j - 1]);
        }
      }
    }
  }

  /**
   * `sorted([d for d in collection.distinct("hwNmNorthboundEventDate") if d])`:
   * every event date that is present and non-empty, once each, in order.
   */
  function DistinctDays(primary: seq<Day.PrimaryEvent>): (r: seq<string>)
    ensures |r| <= |primary|
  {
    if primary == [] then []
    else
      var p, e := DistinctDays(primary[..|primary| - 1]), primary[|primary| - 1];
      if e.date.Some? && e.date.value != [] then Insert(e.date.value, p) else p
  }

  /** The dates are strictly increasing, and are exactly the non-empty dates some event carries. */
  lemma {:induction false} DistinctDaysSpec(primary: seq<Day.PrimaryEvent>)
    ensures StrictlyIncreasing(DistinctDays(primary))
    ensures forall d :: d in DistinctDays(primary) <==> d != [] && exists e :: e in primary && e.date == Some(d)
  {
    if primary != [] {
      var init, e := primary[..|primary| - 1], primary[|primary| - 1];
      assert primary == init + [e];
      DistinctDaysSpec(init);
      if e.date.Some? && e.date.value != [] {
        InsertSorted(e.date.value, DistinctDays(init));
      }
    }
  }

  /** Two strictly increasing lists with the same elements are the same list. */
  lemma {:induction false} SortedUnique(a: seq<string>, b: seq<string>)
    requires StrictlyIncreasing(a) && StrictlyIncreasing(b)
    requires forall x :: x in a <==> x in b
    ensures a == b
  {
    if a != [] && b != [] {
      assert a[0] in b;
      assert b[0] in a;
      if a[0] != b[0] {
        var i :| 0 <= i < |b| && b[i] == a[0];
        var j :| 0 <= j < |a| && a[j] == b[0];
        BelowAsymmetric(b[0], a[0]);
      }
      forall x ensures x in a[1..] <==> x in b[1..] {
        if x in a[1..] {
          TailMember(a, b, x);
        }
        if x in b[1..] {
          TailMember(b, a, x);
        }
      }
      SortedUnique(a[1..], b[1..]);
    } else if a != [] {
      // One list is empty and the other is not, which the shared elements rule out: `HeadIn` puts
      // that element in scope, and the contradiction is stated as a bare `assert false`.
      HeadIn(a);
      assert false;
    } else if b != [] {
      HeadIn(b);
      assert false;
    }
  }

  lemma HeadIn(s: seq<string>)
    requires s != []
    ensures s[0] in s
  {
  }

  lemma TailMember(a: seq<string>, b: seq<string>, x: string)
    requires StrictlyIncreasing(a) && StrictlyIncreasing(b) && a != [] && b != [] && a[0] == b[0]
    requires forall y :: y in a <==> y in b
    requires x in a[1..]
    ensures x in b[1..]
  {
    var k :| 1 <= k < |a| && a[k] == x;
    assert Below(a[0], x);
    BelowIrreflexive(x);
    assert x in a;
    var m :| 0 <= m < |b| && b[m] == x;
    assert m != 0;
    assert b[1..][m - 1] == x;
  }

  /** Any sorted, duplicate-free listing of the non-empty event dates is the list of days processed. */
  lemma DistinctDaysUnique(primary: seq<Day.PrimaryEvent>, days: seq<string>)
    requires StrictlyIncreasing(days)
    requires forall d :: d in days <==> d != [] && exists e :: e in primary && e.date == Some(d)
    ensures days == DistinctDays(primary)
  {
    DistinctDaysSpec(primary);
    SortedUnique(days, DistinctDays(primary));
  }

  // ---------------------------------------------------------------------------
  // The run
  // ---------------------------------------------------------------------------

  /** The days processed one after the other: the outcome of the last, and the sum of the returned counts. */
  function JobEffect(records: Records, counts: map<string, nat>, days: seq<string>,
                     primary: seq<Day.PrimaryEvent>, candidates: seq<Correlation.Candidate>): (r: Day.DayOutcome)
    ensures records.Keys <= r.records.Keys && counts.Keys <= r.counts.Keys
  {
    if days == [] then Day.DayOutcome(records, counts, 0)
    else
      var p := JobEffect(records, counts, days[..|days| - 1], primary, candidates);
      var d := Day.DayEffect(p.records, p.counts, days[|days| - 1], primary, candidates);
      Day.DayOutcome(d.records, d.counts, p.inserted + d.inserted)
  }

  /** The batches written, day after day. */
  function JobWrites(days: seq<string>, primary: seq<Day.PrimaryEvent>, candidates: seq<Correlation.Candidate>): seq<seq<Op>>
  {
    if days == [] then []
    else JobWrites(days[..|days| - 1], primary, candidates) + Chunks(Day.Written(days[|days| - 1], primary, candidates))
  }

  /** The operations each day wrote, day after day. */
  function JobOps(days: seq<string>, primary: seq<Day.PrimaryEvent>, candidates: seq<Correlation.Candidate>): seq<Op>
  {
    if days == [] then []
    else JobOps(days[..|days| - 1], primary, candidates) + Day.Written(days[|days| - 1], primary, candidates)
  }

  /** Each day's operations are written once, in the order of the days; no batch holds more than 500. */
  lemma {:induction false} JobWritesOps(days: seq<string>, primary: seq<Day.PrimaryEvent>, candidates: seq<Correlation.Candidate>)
    ensures Flatten(JobWrites(days, primary, candidates)) == JobOps(days, primary, candidates)
    ensures forall i :: 0 <= i < |JobWrites(days, primary, candidates)| ==>
      0 < |JobWrites(days, primary, candidates)[i]| <= BatchSize
  {
    if days != [] {
      var init, last := days[..|days| - 1], days[|days| - 1];
      JobWritesOps(init, primary, candidates);
      ChunksSpec(Day.Written(last, primary, candidates));
      FlattenAppend(JobWrites(init, primary, candidates), Chunks(Day.Written(last, primary, candidates)));
    }
  }

  /** The day raised an exception (so `process_day` returned 0). */
  predicate Raises(day: string, primary: seq<Day.PrimaryEvent>, candidates: seq<Correlation.Candidate>)
  {
    day != [] && Day.ScanOf(Day.Assessed(Day.Selected(day, primary), candidates)).failed
  }

  /** The keys new since `start` after adding `added` to `now`: those new before, plus those `added` creates. */
  lemma NewKeys(start: set<string>, now: set<string>, added: set<string>)
    requires start <= now
    ensures |(now + added) - start| == |now - start| + |added - now|
  {
    assert (now + added) - start == (now - start) + (added - now);
    assert (now - start) * (added - now) == {};
  }

  /**
   * `total_processed` never exceeds the number of records the run created,
   * and equals it when no day raised: a day that raised still leaves its
   * flushed batches written, but counts 0.
   */
  lemma {:induction false} JobInserted(records: Records, counts: map<string, nat>, days: seq<string>,
                                       primary: seq<Day.PrimaryEvent>, candidates: seq<Correlation.Candidate>)
    ensures records.Keys <= JobEffect(records, counts, days, primary, candidates).records.Keys
    ensures JobEffect(records, counts, days, primary, candidates).inserted
         <= |JobEffect(records, counts, days, primary, candidates).records.Keys - records.Keys|
    ensures (forall d :: d in days ==> !Raises(d, primary, candidates)) ==>
      JobEffect(records, counts, days, primary, candidates).inserted
        == |JobEffect(records, counts, days, primary, candidates).records.Keys - records.Keys|
  {
    if days != [] {
      var init, last := days[..|days| - 1], days[|days| - 1];
      JobInserted(records, counts, init, primary, candidates);
      var p := JobEffect(records, counts, init, primary, candidates);
      Day.DayInserted(p.records, p.counts, last, primary, candidates);
      NewKeys(records.Keys, p.records.Keys, KeysOf(Day.Written(last, primary, candidates)));
      if forall d :: d in days ==> !Raises(d, primary, candidates) {
        assert forall d :: d in init ==> d in days;
        assert last in days;
      }
    }
  }

  /** One more day after the days `done`: the run so far followed by that day. */
  lemma JobStep(records: Records, counts: map<string, nat>, done: seq<string>, day: string,
                primary: seq<Day.PrimaryEvent>, candidates: seq<Correlation.Candidate>)
    ensures var p := JobEffect(records, counts, done, primary, candidates);
      var o := Day.DayEffect(p.records, p.counts, day, primary, candidates);
      JobEffect(records, counts, done + [day], primary, candidates) == Day.DayOutcome(o.records, o.counts, p.inserted + o.inserted)
    ensures JobWrites(done + [day], primary, candidates)
         == JobWrites(done, primary, candidates) + Chunks(Day.Written(day, primary, candidates))
  {
    SnocParts(done, day);
  }

  lemma SnocParts(done: seq<string>, day: string)
    ensures (done + [day])[..|done|] == done && (done + [day])[|done|] == day
  {
  }

  lemma PrefixSnoc(days: seq<string>, i: nat)
    requires i < |days|
    ensures days[..i + 1] == days[..i] + [days[i]]
  {
  }

  /** One pass of `main`'s loop: `count = process_day(date_str, ...)`, then `total_processed += count`. */
  method RunDay(primary: seq<Day.PrimaryEvent>, candidates: seq<Correlation.Candidate>,
                out: Collection, tc: Diagnostics.Tally, days: seq<string>, i: nat, total: nat,
                ghost records0: Records, ghost counts0: map<string, nat>, ghost writes0: seq<seq<Op>>)
    returns (sum: nat)
    requires i < |days|
    requires Day.DayOutcome(out.records, tc.counts, total) == JobEffect(records0, counts0, days[..i], primary, candidates)
    requires out.writes == writes0 + JobWrites(days[..i], primary, candidates)
    modifies out, tc
    ensures Day.DayOutcome(out.records, tc.counts, sum) == JobEffect(records0, counts0, days[..i + 1], primary, candidates)
    ensures out.writes == writes0 + JobWrites(days[..i + 1], primary, candidates)
  {
    var count := Day.ProcessDay(days[i], primary, candidates, out, tc);
    PrefixSnoc(days, i);
    JobStep(records0, counts0, days[..i], days[i], primary, candidates);
    AppendAssociates(writes0, JobWrites(days[..i], primary, candidates), Chunks(Day.Written(days[i], primary, candidates)));
    sum := total + count;
  }

  /**
   * The loop of `main`: each day of `DistinctDays` goes through
   * `process_day` once, in order, with the returned counts summed.
   */
  method RunJob(primary: seq<Day.PrimaryEvent>, candidates: seq<Correlation.Candidate>,
                out: Collection, tc: Diagnostics.Tally) returns (total: nat)
    modifies out, tc
    ensures Day.DayOutcome(out.records, tc.counts, total)
         == JobEffect(old(out.records), old(tc.counts), DistinctDays(primary), primary, candidates)
    ensures out.writes == old(out.writes) + JobWrites(DistinctDays(primary), primary, candidates)
  {
    ghost var records0, counts0, writes0 := out.records, tc.counts, out.writes;
    var days := DistinctDays(primary);
    total := 0;
    var i := 0;
    while i < |days|
      invariant 0 <= i <= |days|
      invariant Day.DayOutcome(out.records, tc.counts, total) == JobEffect(records0, counts0, days[..i], primary, candidates)
      invariant out.writes == writes0 + JobWrites(days[..i], primary, candidates)
    {
      total := RunDay(primary, candidates, out, tc, days, i, total, records0, counts0, writes0);
      i := i + 1;
    }
    assert days[..i] == days;
  }
}
