/**
 * `process_day`: for every primary event of one day, build its key, bump
 * the diagnostic tally, resolve the window, count the matching candidates'
 * signatures and stage one upsert-increment, writing staged operations in
 * batches of 500; any exception abandons the day and returns 0.
 */
module Day {
  import opened Wrappers
  import Keys
  import Window
  import Correlation
  import Diagnostics
  import opened Store

  /** The `snmpTrapOID` of keep-alive heartbeats, which the primary query excludes. */
  const KeepAlive: string := "hwNmNorthboundEventKeepAlive"

  /** A primary event document; any field may be missing. */
  datatype PrimaryEvent = PrimaryEvent(
    date: Option<string>,            // hwNmNorthboundEventDate
    time: Option<string>,            // hwNmNorthboundEventTime
    name: Option<string>,            // hwNmNorthboundEventName
    faultFlag: Option<string>,       // hwNmNorthboundFaultFlag
    neName: Option<string>,          // hwNmNorthboundNEName
    objectInstance: Option<string>,  // hwNmNorthboundObjectInstance
    trapOid: Option<string>)         // snmpTrapOID

  /**
   * `collection.find({"hwNmNorthboundEventDate": day, "snmpTrapOID": {"$ne": KeepAlive}})`,
   * in collection order (`$ne` also matches a missing trap identifier).
   */
  function Selected(day: string, primary: seq<PrimaryEvent>): (r: seq<PrimaryEvent>)
    ensures |r| <= |primary|
    ensures forall e :: e in r <==> e in primary && e.date == Some(day) && e.trapOid != Some(KeepAlive)
    ensures forall e ::
      multiset(r)[e] == (if e.date == Some(day) && e.trapOid != Some(KeepAlive) then multiset(primary)[e] else 0)
  {
    if primary == [] then []
    else
      var init, last := primary[..|primary| - 1], primary[|primary| - 1];
      assert primary == init + [last];
      assert multiset(primary) == multiset(init) + multiset{last};
      Selected(day, init) + (if last.date == Some(day) && last.trapOid != Some(KeepAlive) then [last] else [])
  }

  /** Only Faults and Recoveries are correlated. */
  predicate Eligible(ev: PrimaryEvent)
    ensures Eligible(ev) ==> ev.faultFlag.Some?
  {
    ev.faultFlag == Some("Fault") || ev.faultFlag == Some("Recovery")
  }

  /** What one primary event does. */
  datatype Assessment =
    | Skip                                        // not a Fault or Recovery: nothing happens
    | Fail(bumped: Option<string>)                // an exception; the tally was bumped first if `bumped` is present
    | Done(key: string, counts: map<string, nat>) // tally bumped under `key`; `counts` is `inner_dict`

  /** The body of the event loop for one event, as a value. */
  function Assess(ev: PrimaryEvent, candidates: seq<Correlation.Candidate>): (a: Assessment)
    ensures a.Skip? <==> ev.faultFlag.Some? && !Eligible(ev)
    ensures !a.Skip? && ev.faultFlag.Some? ==> Eligible(ev)
    ensures a.Done? ==>
      (ev.neName.Some? && ev.objectInstance.Some? && ev.name.Some? &&
       a.key == Keys.PrimaryKey(ev.neName.value, ev.objectInstance.value, ev.name.value, ev.faultFlag == Some("Recovery")))
    ensures a.Done? ==> forall k :: k in a.counts ==> '.' !in k
  {
    match ev.faultFlag
    case None => Fail(None)
    case Some(flag) =>
      if flag != "Fault" && flag != "Recovery" then Skip
      else if ev.neName.None? || ev.objectInstance.None? || ev.name.None? || ev.time.None? || ev.date.None? then
        Fail(None)
      else
        var recovery := flag == "Recovery";
        var key := Keys.PrimaryKey(ev.neName.value, ev.objectInstance.value, ev.name.value, recovery);
        match Window.Resolve(ev.date.value, ev.time.value)
        case None => Fail(Some(key))
        case Some(w) =>
          var found := Correlation.Query(candidates, w, recovery);
          match Correlation.Signatures(found)
          case None => Fail(Some(key))
          case Some(sigs) =>
            Correlation.SignaturesHaveNoDots(found);
            Done(key, Correlation.Tally(sigs))
  }

  /** The tally keys an assessment bumped: one, unless it failed before building its key or was skipped. */
  function Bumps(a: Assessment): (r: seq<string>)
    ensures |r| <= 1
    ensures a.Skip? ==> r == []
  {
    match a
    case Skip => []
    case Fail(b) => if b.Some? then [b.value] else []
    case Done(k, _) => [k]
  }

  /** The upsert an assessment stages: only a Done with at least one matching signature stages one. */
  function Staged(a: Assessment): (r: seq<Op>)
    ensures |r| <= 1
    ensures r != [] ==> a.Done? && r[0].key == a.key && r[0].deltas != map[]
  {
    if a.Done? && a.counts != map[] then [Op(a.key, a.counts)] else []
  }

  /** What each of the day's events does, taken on its own. */
  function Assessed(evs: seq<PrimaryEvent>, candidates: seq<Correlation.Candidate>): (r: seq<Assessment>)
    ensures |r| == |evs|
  {
    if evs == [] then [] else Assessed(evs[..|evs| - 1], candidates) + [Assess(evs[|evs| - 1], candidates)]
  }

  /** The effect of a prefix of the day's events: tally bumps, staged operations, and whether it raised. */
  datatype Scan = Scan(bumps: seq<string>, ops: seq<Op>, failed: bool)

  /** The scan after one more event, unless an earlier one already raised. */
  function Next(p: Scan, a: Assessment): Scan
  {
    if p.failed then p else Scan(p.bumps + Bumps(a), p.ops + Staged(a), a.Fail?)
  }

  /** Events are handled in order; the first one that raises ends the day. */
  function ScanOf(steps: seq<Assessment>): (r: Scan)
    ensures r.failed ==> steps != [] && exists i :: 0 <= i < |steps| && steps[i].Fail?
  {
    if steps == [] then Scan([], [], false) else Next(ScanOf(steps[..|steps| - 1]), steps[|steps| - 1])
  }

  /** The scan bumps the tally at most once, and stages at most one upsert, per event. */
  lemma {:induction false} ScanOfBounds(steps: seq<Assessment>)
    ensures |ScanOf(steps).bumps| <= |steps| && |ScanOf(steps).ops| <= |steps|
  {
    if steps != [] {
      ScanOfBounds(steps[..|steps| - 1]);
    }
  }

  /** Once an event has raised, the rest of the day is not looked at. */
  lemma {:induction false} ScanStopsAtFailure(steps: seq<Assessment>, i: nat)
    requires i <= |steps| && ScanOf(steps[..i]).failed
    ensures ScanOf(steps) == ScanOf(steps[..i])
    decreases |steps| - i
  {
    if i < |steps| {
      assert steps[..i + 1][..i] == steps[..i];
      ScanStopsAtFailure(steps, i + 1);
    } else {
      assert steps[..i] == steps;
    }
  }

  /** The operations that reach `bulk_write`: all staged ones, or only the whole batches if the day raised. */
  function Written(day: string, primary: seq<PrimaryEvent>, candidates: seq<Correlation.Candidate>): (w: seq<Op>)
    ensures |w| <= |Selected(day, primary)|
  {
    if day == [] then []
    else
      var scan := ScanOf(Assessed(Selected(day, primary), candidates));
      ScanOfBounds(Assessed(Selected(day, primary), candidates));
      if scan.failed then Flushed(scan.ops) else scan.ops
  }

  /** The state a day leaves behind, and `process_day`'s return value. */
  datatype DayOutcome = DayOutcome(records: Records, counts: map<string, nat>, inserted: nat)

  function DayEffect(records: Records, counts: map<string, nat>, day: string,
                     primary: seq<PrimaryEvent>, candidates: seq<Correlation.Candidate>): (r: DayOutcome)
    ensures records.Keys <= r.records.Keys && counts.Keys <= r.counts.Keys
  {
    if day == [] then DayOutcome(records, counts, 0)
    else
      var scan := ScanOf(Assessed(Selected(day, primary), candidates));
      var applied := ApplyAll(records, Written(day, primary, candidates));
      DayOutcome(applied.records, Diagnostics.Bumped(counts, scan.bumps), if scan.failed then 0 else applied.upserted)
  }

  /**
   * The tally rises by one, under the event's key, exactly for a Fault or
   * Recovery whose name, NE name, object instance, time and date are all
   * present (all five are read before the bump); every other event leaves it
   * alone.
   */
  lemma AssessBumps(ev: PrimaryEvent, candidates: seq<Correlation.Candidate>)
    ensures !Eligible(ev) ==> Bumps(Assess(ev, candidates)) == []
    ensures Eligible(ev) && (ev.neName.None? || ev.objectInstance.None? || ev.name.None? || ev.time.None? || ev.date.None?)
      ==> Bumps(Assess(ev, candidates)) == []
    ensures Eligible(ev) && ev.neName.Some? && ev.objectInstance.Some? && ev.name.Some? && ev.time.Some? && ev.date.Some?
      ==> Bumps(Assess(ev, candidates))
          == [Keys.PrimaryKey(ev.neName.value, ev.objectInstance.value, ev.name.value, ev.faultFlag == Some("Recovery"))]
  {
  }

  /**
   * An event stages an upsert exactly when it completes and its query
   * matched at least one candidate.
   */
  lemma NoMatchStagesNothing(ev: PrimaryEvent, candidates: seq<Correlation.Candidate>)
    requires Assess(ev, candidates).Done?
    ensures ev.date.Some? && ev.time.Some? && Window.Resolve(ev.date.value, ev.time.value).Some?
    ensures Staged(Assess(ev, candidates)) == [] <==>
      forall c :: c in candidates ==>
        !Correlation.Matches(c, Window.Resolve(ev.date.value, ev.time.value).value, ev.faultFlag == Some("Recovery"))
    ensures |Staged(Assess(ev, candidates))| <= 1
  {
    var w := Window.Resolve(ev.date.value, ev.time.value).value;
    var recovery := ev.faultFlag == Some("Recovery");
    assert Correlation.Correlate(candidates, w, recovery) == Some(Assess(ev, candidates).counts);
    Correlation.CorrelateEmpty(candidates, w, recovery);
  }

  /**
   * Every staged operation is written exactly once and in staging order;
   * after an exception only the whole batches already flushed were written,
   * and fewer than `batch_size` staged operations were lost.
   */
  lemma WrittenOps(day: string, primary: seq<PrimaryEvent>, candidates: seq<Correlation.Candidate>)
    requires day != []
    ensures var scan := ScanOf(Assessed(Selected(day, primary), candidates));
      var w := Written(day, primary, candidates);
      (!scan.failed ==> w == scan.ops) &&
      (scan.failed ==> Whole(w) && w == scan.ops[..|w|] && |scan.ops| - |w| < BatchSize)
    ensures Flatten(Chunks(Written(day, primary, candidates))) == Written(day, primary, candidates)
  {
    ChunksSpec(Written(day, primary, candidates));
  }

  /** `process_day` returns the number of records its writes created, or 0 when it raised. */
  lemma DayInserted(records: Records, counts: map<string, nat>, day: string,
                    primary: seq<PrimaryEvent>, candidates: seq<Correlation.Candidate>)
    ensures var outcome := DayEffect(records, counts, day, primary, candidates);
      outcome.records.Keys == records.Keys + KeysOf(Written(day, primary, candidates)) &&
      (day == [] || ScanOf(Assessed(Selected(day, primary), candidates)).failed ==> outcome.inserted == 0) &&
      (day != [] && !ScanOf(Assessed(Selected(day, primary), candidates)).failed ==>
        outcome.inserted == |KeysOf(Written(day, primary, candidates)) - records.Keys|)
  {
    UpsertedCount(records, Written(day, primary, candidates));
  }

  /**
   * One pass of the event loop's body: builds the key, bumps the tally,
   * resolves the window and counts the signatures, stopping where the
   * source would raise.
   */
  method HandleEvent(ev: PrimaryEvent, candidates: seq<Correlation.Candidate>, tc: Diagnostics.Tally)
    returns (a: Assessment)
    modifies tc
    ensures a == Assess(ev, candidates)
    ensures tc.counts == Diagnostics.Bumped(old(tc.counts), Bumps(a))
  {
    if ev.faultFlag.None? {
      return Fail(None);
    }
    var flag := ev.faultFlag.value;
    if flag != "Fault" && flag != "Recovery" {
      return Skip;
    }
    var recovery := flag == "Recovery";
    if ev.neName.None? || ev.objectInstance.None? || ev.name.None? || ev.time.None? || ev.date.None? {
      return Fail(None);
    }
    var key := Keys.PrimaryKey(ev.neName.value, ev.objectInstance.value, ev.name.value, recovery);
    tc.Increment(key);
    var window := Window.Resolve(ev.date.value, ev.time.value);
    if window.None? {
      return Fail(Some(key));
    }
    var found := Correlation.Query(candidates, window.value, recovery);
    var counts := Correlation.CountSignatures(found);
    if counts.None? {
      return Fail(Some(key));
    }
    return Done(key, counts.value);
  }

  /** Handling step `i` takes the scan of the steps before it one step further. */
  lemma ScanOfStep(steps: seq<Assessment>, i: nat)
    requires i < |steps|
    ensures ScanOf(steps[..i + 1]) == Next(ScanOf(steps[..i]), steps[i])
  {
    assert steps[..i + 1][..i] == steps[..i];
  }

  /** The `j`-th assessment of a day is that of its `j`-th event. */
  lemma {:induction false} AssessedIndex(events: seq<PrimaryEvent>, candidates: seq<Correlation.Candidate>, j: nat)
    requires j < |events|
    ensures Assessed(events, candidates)[j] == Assess(events[j], candidates)
  {
    if j < |events| - 1 {
      AssessedIndex(events[..|events| - 1], candidates, j);
    }
  }

  lemma BumpOne(counts: map<string, nat>, bumps: seq<string>, a: Assessment)
    ensures Diagnostics.Bumped(counts, bumps + Bumps(a)) == Diagnostics.Bumped(Diagnostics.Bumped(counts, bumps), Bumps(a))
  {
    if Bumps(a) == [] {
      assert bumps + Bumps(a) == bumps;
    } else {
      Diagnostics.BumpedSnoc(counts, bumps, Bumps(a)[0]);
    }
  }

  /** Writing one more whole batch extends the records and the write log steps the concatenation says. */
  lemma FlushBatch(records: Records, writes: seq<seq<Op>>, flushed: seq<Op>, batch: seq<Op>)
    requires Whole(flushed) && 0 < |batch| <= BatchSize
    ensures ApplyAll(records, flushed + batch).records == ApplyAll(ApplyAll(records, flushed).records, batch).records
    ensures ApplyAll(records, flushed + batch).upserted
         == ApplyAll(records, flushed).upserted + ApplyAll(ApplyAll(records, flushed).records, batch).upserted
    ensures writes + Chunks(flushed + batch) == writes + Chunks(flushed) + [batch]
  {
    ApplyAllConcat(records, flushed, batch);
    ChunksAppend(flushed, batch);
    AppendAssociates(writes, Chunks(flushed), [batch]);
  }

  /** A day that raised: only its whole batches were written, and it returns 0. */
  lemma FailedDay(records: Records, counts: map<string, nat>, day: string, primary: seq<PrimaryEvent>,
                  candidates: seq<Correlation.Candidate>, flushed: seq<Op>, bulk: seq<Op>)
    requires day != [] && Whole(flushed) && |bulk| < BatchSize
    requires ScanOf(Assessed(Selected(day, primary), candidates)).failed
    requires ScanOf(Assessed(Selected(day, primary), candidates)).ops == flushed + bulk
    ensures Written(day, primary, candidates) == flushed
    ensures DayEffect(records, counts, day, primary, candidates)
         == DayOutcome(ApplyAll(records, flushed).records,
                       Diagnostics.Bumped(counts, ScanOf(Assessed(Selected(day, primary), candidates)).bumps), 0)
  {
    FlushedOfWhole(flushed, bulk);
  }

  /** A day that ran to the end: every staged operation was written, and it returns all the upserts. */
  lemma FinishedDay(records: Records, counts: map<string, nat>, day: string, primary: seq<PrimaryEvent>,
                    candidates: seq<Correlation.Candidate>, written: seq<Op>)
    requires day != []
    requires !ScanOf(Assessed(Selected(day, primary), candidates)).failed
    requires ScanOf(Assessed(Selected(day, primary), candidates)).ops == written
    ensures Written(day, primary, candidates) == written
    ensures DayEffect(records, counts, day, primary, candidates)
         == DayOutcome(ApplyAll(records, written).records,
                       Diagnostics.Bumped(counts, ScanOf(Assessed(Selected(day, primary), candidates)).bumps),
                       ApplyAll(records, written).upserted)
  {
  }

  /**
   * What the buffer has done so far: the whole batches `flushed` have been
   * written to `out` one `bulk_write` each, starting from `records0` and
   * `writes0`, and `inserted` is the upserts they made.
   */
  ghost predicate Progress(out: Collection, records0: Records, writes0: seq<seq<Op>>, flushed: seq<Op>, inserted: nat)
    reads out
  {
    Whole(flushed)
    && out.records == ApplyAll(records0, flushed).records
    && inserted == ApplyAll(records0, flushed).upserted
    && out.writes == writes0 + Chunks(flushed)
  }

  /** `bulk_operations.append(op)`, then the `bulk_write` once the buffer holds `batch_size` operations. */
  method Stage(out: Collection, bulk: seq<Op>, op: Op, inserted: nat,
               ghost records0: Records, ghost writes0: seq<seq<Op>>, ghost flushed: seq<Op>)
    returns (pending: seq<Op>, total: nat, ghost done: seq<Op>)
    requires Progress(out, records0, writes0, flushed, inserted) && |bulk| < BatchSize
    modifies out
    ensures Progress(out, records0, writes0, done, total) && |pending| < BatchSize
    ensures done + pending == flushed + bulk + [op]
  {
    pending := bulk + [op];
    total := inserted;
    done := flushed;
    assert flushed + bulk + [op] == flushed + pending;
    if |pending| >= BatchSize {
      assert flushed + bulk + [op] == (flushed + pending) + [];
      var n := out.BulkWrite(pending);
      total := inserted + n;
      FlushBatch(records0, writes0, flushed, pending);
      WholeExtend(flushed, pending);
      done := flushed + pending;
      pending := [];
    }
  }

  /**
   * One iteration of the loop over the day's events: handles event `i` after
   * a prefix that did not raise, staging its upsert and writing a full batch.
   * `ok` is false when the event raised, in which case nothing is staged.
   */
  method ConsumeEvent(events: seq<PrimaryEvent>, candidates: seq<Correlation.Candidate>,
                      out: Collection, tc: Diagnostics.Tally, i: nat, bulk: seq<Op>, inserted: nat,
                      ghost steps: seq<Assessment>, ghost flushed: seq<Op>,
                      ghost records0: Records, ghost counts0: map<string, nat>, ghost writes0: seq<seq<Op>>)
    returns (ok: bool, pending: seq<Op>, total: nat, ghost done: seq<Op>)
    requires steps == Assessed(events, candidates) && i < |events|
    requires !ScanOf(steps[..i]).failed && ScanOf(steps[..i]).ops == flushed + bulk
    requires tc.counts == Diagnostics.Bumped(counts0, ScanOf(steps[..i]).bumps)
    requires Progress(out, records0, writes0, flushed, inserted) && |bulk| < BatchSize
    modifies out, tc
    ensures ok == !ScanOf(steps[..i + 1]).failed
    ensures ScanOf(steps[..i + 1]).ops == done + pending
    ensures tc.counts == Diagnostics.Bumped(counts0, ScanOf(steps[..i + 1]).bumps)
    ensures Progress(out, records0, writes0, done, total) && |pending| < BatchSize
  {
    var a := HandleEvent(events[i], candidates, tc);
    AssessedIndex(events, candidates, i);
    ghost var prev := ScanOf(steps[..i]);
    ScanOfStep(steps, i);
    BumpOne(counts0, prev.bumps, a);
    ok, pending, total, done := !a.Fail?, bulk, inserted, flushed;
    if a.Done? && a.counts != map[] {
      var op := Op(a.key, a.counts);
      AppendAssociates(flushed, bulk, [op]);
      pending, total, done := Stage(out, bulk, op, inserted, records0, writes0, flushed);
    } else {
      assert prev.ops + Staged(a) == prev.ops;
    }
  }

  /**
   * The loop over the day's events: handles them in order, staging upserts
   * and writing full batches, until one raises (`ok` is false) or all are
   * done. `bulk` is what is left in the buffer.
   */
  method ScanDay(events: seq<PrimaryEvent>, candidates: seq<Correlation.Candidate>,
                 out: Collection, tc: Diagnostics.Tally, ghost steps: seq<Assessment>)
    returns (ok: bool, bulk: seq<Op>, inserted: nat, ghost flushed: seq<Op>)
    requires steps == Assessed(events, candidates)
    modifies out, tc
    ensures ok == !ScanOf(steps).failed
    ensures ScanOf(steps).ops == flushed + bulk
    ensures tc.counts == Diagnostics.Bumped(old(tc.counts), ScanOf(steps).bumps)
    ensures Progress(out, old(out.records), old(out.writes), flushed, inserted) && |bulk| < BatchSize
  {
    inserted := 0;
    bulk := [];
    flushed := [];
    ghost var records0, counts0, writes0 := out.records, tc.counts, out.writes;
    var i := 0;
    assert steps[..0] == [];
    while i < |events|
      invariant 0 <= i <= |events|
      invariant !ScanOf(steps[..i]).failed && ScanOf(steps[..i]).ops == flushed + bulk
      invariant tc.counts == Diagnostics.Bumped(counts0, ScanOf(steps[..i]).bumps)
      invariant Progress(out, records0, writes0, flushed, inserted) && |bulk| < BatchSize
    {
      ok, bulk, inserted, flushed :=
        ConsumeEvent(events, candidates, out, tc, i, bulk, inserted, steps, flushed, records0, counts0, writes0);
      if !ok {
        ScanStopsAtFailure(steps, i + 1);
        return;
      }
      i := i + 1;
    }
    assert steps[..i] == steps;
    ok := true;
  }

  /** `if bulk_operations: to_save_coll.bulk_write(bulk_operations)`: the last, partial batch. */
  method FlushRest(out: Collection, bulk: seq<Op>, inserted: nat,
                   ghost records0: Records, ghost writes0: seq<seq<Op>>, ghost flushed: seq<Op>)
    returns (total: nat)
    requires Progress(out, records0, writes0, flushed, inserted) && |bulk| < BatchSize
    modifies out
    ensures out.records == ApplyAll(records0, flushed + bulk).records
    ensures total == ApplyAll(records0, flushed + bulk).upserted
    ensures out.writes == writes0 + Chunks(flushed + bulk)
  {
    if bulk != [] {
      var n := out.BulkWrite(bulk);
      total := inserted + n;
      FlushBatch(records0, writes0, flushed, bulk);
    } else {
      total := inserted;
      assert flushed + bulk == flushed;
    }
  }

  /**
   * `process_day(day, ...)`: `out` is the output collection, `tc` the tally.
   * The new records, tally and return value are those of `DayEffect`, and
   * the bulk writes made are the staged operations cut into batches of 500,
   * each operation written exactly once and in staging order.
   */
  method ProcessDay(day: string, primary: seq<PrimaryEvent>, candidates: seq<Correlation.Candidate>,
                    out: Collection, tc: Diagnostics.Tally) returns (inserted: nat)
    modifies out, tc
    ensures DayOutcome(out.records, tc.counts, inserted)
         == DayEffect(old(out.records), old(tc.counts), day, primary, candidates)
    ensures out.writes == old(out.writes) + Chunks(Written(day, primary, candidates))
  {
    if day == [] {
      return 0;
    }
    ghost var records0, counts0, writes0 := out.records, tc.counts, out.writes;
    var events := Selected(day, primary);
    var ok, bulk, n;
    ghost var flushed;
    ok, bulk, n, flushed := ScanDay(events, candidates, out, tc, Assessed(events, candidates));
    if !ok {
      FailedDay(records0, counts0, day, primary, candidates, flushed, bulk);
      assert DayOutcome(out.records, tc.counts, 0) == DayEffect(records0, counts0, day, primary, candidates);
      assert out.writes == writes0 + Chunks(Written(day, primary, candidates));
      return 0;
    }
    inserted := FlushRest(out, bulk, n, records0, writes0, flushed);
    FinishedDay(records0, counts0, day, primary, candidates, flushed + bulk);
  }
}
