# Alarm correlation engine: a Dafny model

This project models the correlation engine of `Learning/LearningBase.py` and proves properties of it.

The engine works one calendar day at a time. For every primary Fault or Recovery event of a day, `process_day` does the following:

- builds the event's key `NE**MO**alarm`, with `_rec` appended for a Recovery;
- bumps the run-wide diagnostic tally `tc` under that key;
- computes a ±30-second window around the event. The start date moves back a day at or below `00:00:29`, and the end date moves forward a day at or above `23:59:30`;
- queries the candidate alarms whose date lies within the date bounds and whose time lies within the time bounds, as two independent conditions. For a Fault, it keeps those whose severity is neither `Warning` nor `Cleared`. For a Recovery, it keeps only `Cleared` ones;
- counts the matches' signatures `node**object**alarm` in `inner_dict`. Every `.` in a signature part is replaced by the six characters `\u002e`;
- stages one upsert that adds 1 to `count` and `n` to `nested_count[sig]`, unless nothing matched;
- writes the staged upserts with `bulk_write`, in batches of 500, then the remainder. It returns how many records the writes created.

A missing field, a malformed date or time, a date shifted past year 1 or year 9999, or any other exception abandons the day, which then returns 0. Batches already written stay written. `main` runs `process_day` once for each distinct non-empty event date, in ascending order, and sums the returned counts.

The modules, one per file, follow the program's pieces:

- `Text`: the lexicographic string order used by MongoDB range filters and by `sorted`, plus field splitting and zero-padded digits.
- `Calendar`: Gregorian dates, `strptime("%Y-%m-%d")`, `strftime`, and the previous and next day.
- `Clock`: seconds of the day, `strptime("%H:%M:%S")`, `strftime`, and the wrapping ±30-second shift.
- `Window`: the query bounds of one event.
- `Keys`: the primary key and the escaped candidate signature.
- `Correlation`: the candidate query and the signature counting (`inner_dict`).
- `Diagnostics`: the tally `tc`, as a class whose `counts` map is bumped in place.
- `Store`: the output collection, as a class whose `records` map and log of `bulk_write` calls are updated in place; the upsert-increment; and the batching.
- `Day`: `process_day`.
- `Job`: the date loop of `main`.

The imperative parts are Dafny methods with loops and invariants. Each is proved against a function that says what it computes:

- `CountSignatures` against `Tally`;
- `ScanDay` and `ProcessDay` against `ScanOf`, `Written` and `DayEffect`;
- `RunJob` against `JobEffect` and `JobWrites`.

Some behaviours of the code are easy to miss; the model keeps them:

- A missing field in a Fault or Recovery event raises `KeyError`, and that abandons the rest of the day, not only that event.
- The date range and the time range are two separate conditions, not one range of timestamps, so a window that wraps midnight admits no candidate (`Window.WrappedWindowAdmitsNothing`).
- Every Fault or Recovery event whose name, NE name, object instance, time and date are all present bumps the tally, whether or not any candidate matches it.
- The tally is one object shared by every day of the run; it is not reset per day.

## Model

| member | source | states |
|---|---|---|
| Text.BelowIrreflexive | Learning/LearningBase.py:129-130 | no string sorts strictly before itself |
| Text.BelowTransitive | Learning/LearningBase.py:129-130 | the string order used by `$gte`/`$lte` is transitive |
| Text.BelowTotal | Learning/LearningBase.py:262 | any two distinct strings are ordered one way or the other, as `sorted` needs |
| Text.BelowAsymmetric | Learning/LearningBase.py:129-130 | two strings are never each strictly before the other |
| Text.InvertedBoundsAdmitNothing | Learning/LearningBase.py:129-130 | an inclusive range whose upper bound sorts below its lower bound admits no string |
| Text.Fields | Learning/LearningBase.py:107-108 | splitting on a separator gives at least one field, and no field contains the separator |
| Text.Pad2 | Learning/LearningBase.py:111-112 | a two-digit zero-padded field reads back as the number it prints |
| Text.Pad4 | Learning/LearningBase.py:124-125 | a four-digit zero-padded year reads back as the number it prints |
| Text.Pad2Order | Learning/LearningBase.py:129-130 | zero-padded two-digit fields sort exactly as their numbers do |
| Text.Pad4Order | Learning/LearningBase.py:129 | zero-padded four-digit fields sort exactly as their numbers do |
| Calendar.DaysInMonth | Learning/LearningBase.py:108 | every month has 28 to 31 days |
| Calendar.Prev | Learning/LearningBase.py:119 | the previous day is absent (Python raises) exactly for 0001-01-01, and otherwise is a valid earlier date |
| Calendar.Next | Learning/LearningBase.py:121 | the next day is absent (Python raises) exactly for 9999-12-31, and otherwise is a valid later date |
| Calendar.PrevIsAdjacent | Learning/LearningBase.py:119 | no valid date lies strictly between a date and its previous day |
| Calendar.NextIsAdjacent | Learning/LearningBase.py:121 | no valid date lies strictly between a date and its next day |
| Calendar.NextOfPrev | Learning/LearningBase.py:119-121 | the next day of the previous day is the date itself |
| Calendar.PrevOfNext | Learning/LearningBase.py:119-121 | the previous day of the next day is the date itself |
| Calendar.Format | Learning/LearningBase.py:124-125 | `%Y-%m-%d` output is always ten characters |
| Calendar.MonthField | Learning/LearningBase.py:108 | an accepted `%m` field names a month 1 to 12 |
| Calendar.DayField | Learning/LearningBase.py:108 | an accepted `%d` field is 1 to 31 |
| Calendar.Parse | Learning/LearningBase.py:108 | every date that parses is a valid Gregorian date |
| Calendar.ParseFormat | Learning/LearningBase.py:108-125 | parsing a formatted date gives the same date back |
| Calendar.FormatOrder | Learning/LearningBase.py:124-129 | formatted dates sort as the dates do, so the date filter is a range of dates |
| Clock.Format | Learning/LearningBase.py:111-112 | `%H:%M:%S` output is always eight characters |
| Clock.Field | Learning/LearningBase.py:107 | an accepted `%H`, `%M` or `%S` field is within its maximum |
| Clock.Parse | Learning/LearningBase.py:107 | a time that parses is a second of the day below 86400 |
| Clock.Shift | Learning/LearningBase.py:111-112 | adding or subtracting seconds wraps around midnight, as the time part of a shifted `datetime` does |
| Clock.ParseFormat | Learning/LearningBase.py:107-112 | parsing a formatted time gives the same time back |
| Clock.FormatInjective | Learning/LearningBase.py:111-112 | distinct times format differently |
| Clock.SecondsOrder | Learning/LearningBase.py:118-120 | comparing seconds of the day is comparing (hour, minute, second) in order |
| Clock.FormatOrder | Learning/LearningBase.py:130 | formatted times sort strictly as the times do |
| Clock.FormatAtMost | Learning/LearningBase.py:130 | the inclusive `$lte` comparison of formatted times is `<=` on the times |
| Window.Resolve | Learning/LearningBase.py:107-125 | a window exists only when both the time and the date of the event parse |
| Window.At | Learning/LearningBase.py:111-125 | the event's own date is always one end of the window, and the window is missing only when the date has no previous or no next day |
| Window.AtTimes | Learning/LearningBase.py:111-112 | the time bounds are the event time minus and plus 30 seconds, wrapped and formatted |
| Window.ResolveFails | Learning/LearningBase.py:107-121 | the window fails exactly when the time or the date does not parse, or when the date shift passes 0001-01-01 or 9999-12-31 |
| Window.WindowDates | Learning/LearningBase.py:115-125 | strictly between 00:00:29 and 23:59:30 both dates are the event date; at or below 00:00:29 only the start moves to the previous day; at or above 23:59:30 only the end moves to the next day; the dates differ exactly when a shift happened |
| Window.WindowTimes | Learning/LearningBase.py:111-130 | away from midnight, a zero-padded candidate time passes both time bounds exactly when it is within 30 seconds of the event |
| Window.WrappedWindowAdmitsNothing | Learning/LearningBase.py:111-130 | when the window crosses midnight, the lower time bound sorts above the upper one, so the time condition admits no candidate |
| Keys.PrimaryKey | Learning/LearningBase.py:100-103 | the primary key's parts are not escaped: when they contain no `.`, a Fault's key is the candidate signature of the same three names, and a Recovery's is that plus `_rec` |
| Keys.RecoveryKeyExtendsFaultKey | Learning/LearningBase.py:100-103 | the Recovery key is the Fault key of the same triple plus `_rec`, so the two always differ |
| Keys.FaultAndRecoveryKeysCanCoincide | Learning/LearningBase.py:100-103 | a Fault whose alarm name ends in `_rec` shares its key with a Recovery of the shorter name |
| Keys.Escape | Learning/LearningBase.py:147-149 | no `.` survives escaping, and text without a `.` is unchanged |
| Keys.EscapeLength | Learning/LearningBase.py:147-149 | each `.` grows the text by five characters, because the replacement is the six literal characters `\u002e` |
| Keys.Signature | Learning/LearningBase.py:147-149 | a candidate signature never contains a `.` |
| Keys.SignatureOfPlainParts | Learning/LearningBase.py:147-149 | with no `.` in its parts, the signature is `node**obj**alarm` |
| Correlation.Matches | Learning/LearningBase.py:128-135 | a candidate without a date or without a time never matches, since a range filter never matches a missing field |
| Correlation.SeverityAsymmetry | Learning/LearningBase.py:131-135 | a Fault matches only severities other than `Warning` and `Cleared`; a Recovery matches only `Cleared`; no candidate matches both |
| Correlation.Query | Learning/LearningBase.py:138-142 | the query returns no more candidates than the collection holds |
| Correlation.QueryMatches | Learning/LearningBase.py:128-142 | the query returns exactly the candidates whose date, time and severity all pass, each as many times as the collection holds it |
| Correlation.SignatureOf | Learning/LearningBase.py:147-149 | a signature can be built exactly when node, object and alarm name are all present |
| Correlation.SignaturesDefined | Learning/LearningBase.py:145-149 | signatures exist exactly when every match is complete; then there is one per match, in order |
| Correlation.SignaturesHaveNoDots | Learning/LearningBase.py:147-159 | no key of `inner_dict` contains a `.`, so each is one field under `nested_count` |
| Correlation.Tally | Learning/LearningBase.py:144-150 | the last signature counted is a key of `inner_dict`, with a count of at least 1 |
| Correlation.TallyCounts | Learning/LearningBase.py:144-150 | `inner_dict` has a key exactly for each signature seen, holding how many times it was seen |
| Correlation.TallyTotal | Learning/LearningBase.py:144-150 | the values of `inner_dict` sum to the number of matching candidates |
| Correlation.CorrelateEmpty | Learning/LearningBase.py:144-154 | `inner_dict` is empty exactly when no candidate matched the query |
| Correlation.Correlate | Learning/LearningBase.py:138-150 | `inner_dict` is built exactly when every matching candidate has its node, object and alarm name, and raises otherwise |
| Correlation.CorrelateTotal | Learning/LearningBase.py:138-150 | the values of `inner_dict` sum to the number of matching candidates, duplicates included |
| Correlation.CountSignatures | Learning/LearningBase.py:144-150 | the `+= 1` loop builds exactly `Tally` of the signatures, fails exactly when some match lacks a field, and yields no key with a `.` |
| Diagnostics.Bumped | Learning/LearningBase.py:105 | bumping the tally never removes a key |
| Diagnostics.BumpedCounts | Learning/LearningBase.py:105 | after a series of `tc[key] += 1`, each key's count rose by the number of times it was bumped, and the key set grew by exactly those keys |
| Diagnostics.Tally.constructor | Learning/LearningBase.py:238 | the tally starts empty |
| Diagnostics.Tally.Increment | Learning/LearningBase.py:105 | `tc[key] += 1` is one bump of the tally |
| Store.Increment | Learning/LearningBase.py:157-161 | `$inc` on a record adds 1 to `count` and each delta to its `nested_count` field, absent fields read as 0 |
| Store.Merge | Learning/LearningBase.py:159-161 | `$inc` on `nested_count` adds the deltas field by field, treating absent fields as 0 |
| Store.Apply | Learning/LearningBase.py:157-164 | an upsert leaves the key present and touches no other key |
| Store.ApplyEffect | Learning/LearningBase.py:157-164 | an upsert adds 1 to `count` and each delta to `nested_count[sig]`, treating an absent record or field as 0, and leaves every other record unchanged |
| Store.ApplyAll | Learning/LearningBase.py:170 | after a bulk write, the keys are the old keys plus the written ones |
| Store.UpsertedCount | Learning/LearningBase.py:170-171 | `upserted_count` is the number of written keys that were absent before the write |
| Store.ApplyAllConcat | Learning/LearningBase.py:168-179 | writing two lists in turn has the same effect as writing them together, and the upserts add up |
| Store.ApplyCommutes | Learning/LearningBase.py:157-164 | two upserts commute |
| Store.ApplyAllSwap | Learning/LearningBase.py:163-170 | swapping two adjacent staged upserts changes neither the records nor the upsert count |
| Store.ApplyAllTotals | Learning/LearningBase.py:157-164 | after a bulk write, each key's `count` rose by its number of upserts and each `nested_count[sig]` by the sum of its deltas |
| Store.Chunks | Learning/LearningBase.py:168-179 | the staged upserts of a day take one `bulk_write` per started 500, rounding up |
| Store.ChunksSpec | Learning/LearningBase.py:168-179 | batches concatenate back to the staged list; each holds 1 to 500 operations, and all but the last hold exactly 500 |
| Store.WholeLength | Learning/LearningBase.py:168-174 | what the full-batch writes have taken is always a multiple of 500 operations |
| Store.Flushed | Learning/LearningBase.py:168-194 | the full batches of a staged list are a prefix of it, made of whole batches, leaving fewer than 500 behind |
| Store.Collection.constructor | Learning/LearningBase.py:250-251 | a collection starts with the given records and no writes |
| Store.Collection.BulkWrite | Learning/LearningBase.py:170-179 | `bulk_write` applies the operations in order, logs the batch, and reports as upserted the number of written keys that were new |
| Day.Selected | Learning/LearningBase.py:69-71 | the cursor yields exactly the day's events whose trap identifier is not the keep-alive one, a missing one included, each as many times as the collection holds it |
| Day.Eligible | Learning/LearningBase.py:92 | only an event that has a fault flag is ever correlated |
| Day.Assess | Learning/LearningBase.py:92-154 | an event is skipped exactly when its flag is present and neither `Fault` nor `Recovery`; a completed event has its key built from its own fields, with `_rec` exactly for a Recovery, and counts without dots |
| Day.Assessed | Learning/LearningBase.py:86 | there is one outcome per event of the day |
| Day.Bumps | Learning/LearningBase.py:105 | an event bumps the tally at most once, and a skipped event not at all |
| Day.Staged | Learning/LearningBase.py:152-165 | an event stages at most one upsert, only when it completed, under its own key, with a non-empty `inner_dict` |
| Day.ScanOf | Learning/LearningBase.py:86-174 | a scan that raised contains an event that raised |
| Day.ScanOfBounds | Learning/LearningBase.py:86-174 | the tally is bumped at most once, and at most one upsert is staged, per event of the day |
| Day.AssessBumps | Learning/LearningBase.py:92-105 | the tally rises by one under the event's key exactly for a Fault or Recovery whose name, NE name, object instance, time and date are all present, since all five are read before the bump; other events leave it alone |
| Day.NoMatchStagesNothing | Learning/LearningBase.py:152-165 | a completed event stages an upsert exactly when some candidate matched its query, and never more than one |
| Day.ScanStopsAtFailure | Learning/LearningBase.py:86-194 | once an event has raised, the events after it change nothing |
| Day.WrittenOps | Learning/LearningBase.py:163-194 | a day that ran to the end writes every staged upsert exactly once, in staging order; a day that raised writes only its whole batches, a prefix of the staged upserts, losing fewer than 500 |
| Day.Written | Learning/LearningBase.py:163-194 | a day writes at most one upsert per event of the day |
| Day.DayEffect | Learning/LearningBase.py:52-194 | a day never removes a record or a tally key |
| Day.DayInserted | Learning/LearningBase.py:171-194 | the day returns the number of records its writes created, or 0 if it raised; the records afterwards are the old ones plus the written keys |
| Day.FailedDay | Learning/LearningBase.py:192-194 | after an exception only the flushed batches are in the store and the day returns 0, while the tally keeps its bumps |
| Day.FinishedDay | Learning/LearningBase.py:176-190 | a day that ran to the end has written all its staged upserts and returns all their upserts |
| Day.HandleEvent | Learning/LearningBase.py:92-165 | one pass of the event loop computes what `Assess` says and bumps the tally by exactly its bumps |
| Day.Stage | Learning/LearningBase.py:163-174 | after the append-and-check the buffer holds fewer than 500 operations, and flushed plus buffered is what was staged |
| Day.ConsumeEvent | Learning/LearningBase.py:86-174 | handling one more event advances the store, the tally, the buffer and the count exactly as one more step of `ScanOf` |
| Day.ScanDay | Learning/LearningBase.py:86-174 | the event loop stops exactly when an event raises; the tally is bumped by the scan's bumps; flushed plus buffered is the staged list; the store holds exactly the flushed batches |
| Day.FlushRest | Learning/LearningBase.py:177-179 | the final `bulk_write` writes the non-empty remainder as one last batch, and is skipped when the buffer is empty |
| Day.ProcessDay | Learning/LearningBase.py:52-194 | `process_day` leaves exactly the records, the tally and the return value of `DayEffect`, and its writes are the staged upserts cut into batches of 500 |
| Job.Insert | Learning/LearningBase.py:262 | inserting a date grows the list by at most one |
| Job.DistinctDays | Learning/LearningBase.py:262 | there are no more days than events |
| Job.InsertSorted | Learning/LearningBase.py:262 | inserting into a strictly increasing list keeps it strictly increasing and adds exactly the new date |
| Job.DistinctDaysSpec | Learning/LearningBase.py:262 | the days are strictly increasing, with no duplicates, and are exactly the non-empty dates some event carries |
| Job.SortedUnique | Learning/LearningBase.py:262 | two strictly increasing lists with the same elements are equal |
| Job.DistinctDaysUnique | Learning/LearningBase.py:262 | any sorted, duplicate-free listing of the non-empty event dates is the list of days processed |
| Job.JobEffect | Learning/LearningBase.py:265-271 | a run never removes a record or a tally key |
| Job.JobWritesOps | Learning/LearningBase.py:268-271 | every day's written upserts reach the store exactly once, day after day in order, in batches of 1 to 500 |
| Job.JobInserted | Learning/LearningBase.py:265-271 | `total_processed` never exceeds the number of records the run created, and equals it when no day raised |
| Job.RunDay | Learning/LearningBase.py:270-271 | one pass of the date loop is one more day of `JobEffect` and one more day's batches in the store |
| Job.RunJob | Learning/LearningBase.py:262-271 | each day is processed exactly once, in ascending order; the final records, tally and total are those of `JobEffect`, the total being the sum of the days' returns |

## Left out

- Logging (`setup_logging` and every `logger` call): file and console output with no effect on results.
- `ensure_indexes`: index creation in the database, with no effect on results.
- `Learning/DB_details.py` and the connection set-up in `main`: network I/O. The collections are parameters of the model instead.
- Timing with `time.perf_counter` and the minutes computation: wall clock and floating point.
- The disabled thread-pool variant of the date loop: concurrency, and the code is commented out.
- The `doc_count` counter: it only selects which log lines are printed.
- Cursor mechanics (`no_cursor_timeout`, `batch_size=1000`, projections, `cursor.close()`): queries are filters over sequences in collection order.
- The `datetime` library: replaced by Gregorian date and second-of-day arithmetic. Digits outside ASCII, which `strptime` also accepts, are not modelled.
- Calendar.Format: years below 1000 are printed with four digits. CPython's `strftime("%Y")` output for them depends on the platform.
- Field values that are not strings (numbers, nulls, nested documents) are not modelled. Every field is a string that is present or missing.
- Store failures inside `process_day`, such as a rejected write or a failed `find`, are not modelled. In the source they raise and the day returns 0. A rejected write in the middle of a batch, and the ordered bulk write's partial application, are not modelled either.
- `main`'s outer `try`: the failures that reach it are not modelled. Those are a failed connection or index set-up, and a failed `collection.distinct(...)` at line 262, which ends the whole run before any day is processed. The model assumes the date list is always retrieved.
- Day.ProcessDay: it is proved sequentially. That the final records do not depend on the order of upserts is proved only at store level (`Store.ApplyAllSwap`), not for whole days.
