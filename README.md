# cronschedule in Dafny

A verified model of the Go package `cronschedule`. The package parses a
five-field cron expression (`minute hour day-of-month month day-of-week`)
into a `Schedule`. It then answers two questions about a point in time:
whether the schedule fires then, and when it fires next.

The model follows the package's four layers:

- **Value generator** (`generator.dfy`, module `Generator`).
  `GenerateValueSlice` checks a range and interval against a field's domain.
  It then builds the ascending arithmetic progression in a loop.
- **Token parser** (`tokens.dfy`, module `FieldTokens`).
  The anchored regular expression is replaced by a pure classifier into the
  six token shapes: `*`, `*/c`, `a-b`, `a-b/c`, `a/c`, `a`.
  `ParseFieldValue` passes the classified token on to the generator.
  Tokens that the regular expression accepts but the code cannot convert
  make Go panic. Here they give an explicit `Abort` outcome.
- **Schedule construction** (`schedule.dfy`, module `CronSchedule`, with
  its pure counterpart `ScheduleText` in `parsing.dfy`).
  - `Schedule` is a class: the `Add*` methods update its count maps in
    place, `AddFieldStrByIndex` appends to its token lists, and
    `BuildSlices` rebuilds its sorted key slices.
  - `Parse` fills an empty schedule field by field and applies the
    day-of-month/day-of-week wildcard rule.
  - Go's library helpers used on the way are small pure functions in
    module `Text`: `strings.TrimSpace`, `strings.Split` on one character,
    and `strconv.Atoi` on digit strings.
  - The per-field constants are in module `Fields`, the count maps and
    sorted key slices in module `Counts`.
- **Matching and search** (`calendar.dfy`, `search.dfy`, `engine.dfy`).
  - `ShouldExecute` is a predicate on the schedule.
  - `daysPerMonth` and the weekday are pure Gregorian calendar functions,
    with Sunday as 0.
  - `computeStartValues` and `NextExecutions` are imperative methods over
    index cursors into the sorted slices.
  - Go's `computeStartValues` never returns on some inputs: its minute loop
    does not advance its index (see "## Findings"). The as-written start is
    modelled and the inputs on which it stalls are characterised exactly
    (`Engine.StartStalls`).
  - The search itself uses the corrected start. With it, `NextExecutions` is
    proved to enumerate exactly the matching instants after `t`, in
    ascending order. On the stalling inputs this describes the intended
    behaviour, not Go's, which loops for ever there.

Instants are naive local calendar tuples `(year, month, day, hour, minute)`,
ordered lexicographically. `scenarios.dfy` proves what the model says about the
first entry of the repository's test data (`data_test.go`).

## Model

| member | source | states |
|---|---|---|
| Fields.FieldNameByIndex | cronschedule.go:646-661 | the name is "invalid" exactly when the index is not one of the five fields |
| Fields.FieldNamesDistinct | cronschedule.go:646-661 | the five fields have pairwise different names |
| Fields.FieldMinMaxByIndex | cronschedule.go:664-679 | an unknown index is an error carrying that index; a known one gives its domain, with min below max |
| Generator.ValueSliceContract | cronschedule.go:682-718 | the four rejections (interval <= 0, start > end, start < fieldMin, end > fieldMax), each exactly when the earlier checks pass and its own fails; success exactly when all pass, giving a strictly ascending progression from rangeStart in steps of interval within the field domain |
| Generator.GenerateValueSlice | cronschedule.go:682-719 | the method with its append loop returns exactly what the generator specification `ValueSlice` prescribes |
| Generator.ProgressionIsProgression | cronschedule.go:709-718 | the loop's output starts at rangeStart, steps by exactly interval, stays within [rangeStart, rangeEnd], ends where one more step passes rangeEnd, and strictly ascends |
| Generator.ProgressionUnique | cronschedule.go:709-718 | any sequence with those properties is the loop's output |
| Generator.ProgressionMembers | cronschedule.go:710-716 | a value is produced iff it lies in [start, end] and is start plus a multiple of interval |
| Generator.ProgressionLength | cronschedule.go:710-716 | the loop produces (end - start) / interval + 1 values |
| Generator.GoValueLoop | cronschedule.go:709-716 | the 64-bit loop as written: every appended value passed the `value <= rangeEnd` test, the first is rangeStart, each next one is the previous plus interval wrapped to 64 bits, and the loop stops at the first wrapped sum past rangeEnd |
| Generator.GoValueLoopAgrees | cronschedule.go:710-716 | the loop on 64-bit integers produces the same progression whenever rangeEnd + interval does not overflow |
| Generator.WrapAroundExample | cronschedule.go:711-716 | with interval 2^63 - 1 the 64-bit loop wraps past rangeEnd and produces negative values and then 1, which the unbounded progression does not contain |
| Text.TrimLeftShape | cronschedule.go:423 | trimming the front keeps a suffix that does not start with white space; everything dropped is white space |
| Text.TrimRightShape | cronschedule.go:423 | trimming the back keeps a prefix that does not end with white space; everything dropped is white space |
| Text.TrimSpaceMeaning | cronschedule.go:423 | `strings.TrimSpace` keeps an infix that neither starts nor ends with white space, and cuts off only white space on either side |
| Text.SplitPieces | cronschedule.go:426 | no piece of `strings.Split` contains the separator, and joining the pieces gives back the text |
| Text.SplitJoin | cronschedule.go:449 | splitting the join of separator-free pieces gives back those pieces |
| Text.SplitSingle | cronschedule.go:426-429 | splitting yields a single piece iff the separator does not occur |
| Text.Atoi | cronschedule.go:531-534 | `strconv.Atoi` on digits succeeds iff the text is non-empty and its value fits a 64-bit int, and then returns a value in [0, 2^63 - 1]; its partner is the round trip `Text.AtoiDecimalText` |
| Text.AtoiDecimalText | cronschedule.go:627-630 | every representable number is read back from its decimal text |
| FieldTokens.ClassifySound | cronschedule.go:24 | a classified token is well formed and is exactly the rendering of its shape |
| FieldTokens.ClassifyComplete | cronschedule.go:24 | every well-formed shape's text is classified as that shape |
| FieldTokens.ParseFieldValue | cronschedule.go:498-643 | the method returns what `FieldValue` specifies, the classifier's shape fed to the generator |
| FieldTokens.ShapeMeaning | cronschedule.go:514-637 | `*` is min..max step 1, `*/c` is min..max step c, `a-b` is a..b step 1, `a-b/c` is a..b step c, `a/c` is a..max step c, `a` is a..a; each goes through the generator's checks |
| FieldTokens.UnsupportedMeaning | cronschedule.go:501-504 | the unsupported-format error comes back exactly when the text is no well-formed shape's rendering |
| FieldTokens.ShapeValueSupported | cronschedule.go:514-637 | a well-formed shape never gives the unsupported-format error |
| FieldTokens.AbortExamples | cronschedule.go:524-640 | `*/`, `-`, `1-` and the empty token are accepted by the classifier but abort |
| FieldTokens.OverflowAborts | cronschedule.go:627-630 | a single number above 2^63 - 1 aborts, because Atoi fails |
| FieldTokens.FieldValueInDomain | cronschedule.go:514-637 | a successful token yields strictly ascending values within [min, max] |
| Counts.CountedMeaning | cronschedule.go:289-301 | after adding a list, the keys are the old keys plus the listed in-domain values; an in-domain key's count is its old count (0 if absent) plus its number of occurrences; out-of-domain entries are untouched |
| Counts.CountedInDomain | cronschedule.go:289-361 | adding values keeps every key of a map within the field domain |
| Counts.CountInto | cronschedule.go:289-301 | the loop over the values computes the specified counted map |
| Counts.SortMapKeys | cronschedule.go:279-286 | the result is strictly ascending and holds exactly the map's keys |
| Counts.SortedUnique | cronschedule.go:279-286 | two strictly ascending lists with the same elements are equal, so the sorted key list is unique |
| Counts.SortedKeysInRange | cronschedule.go:279-286 | the sorted keys of an in-domain map lie in the domain |
| ScheduleText.ParseTextShape | cronschedule.go:423-438 | the wrong-field-count error comes back exactly when trimming and splitting on " " does not give five fields; a success has five value lists and no empty field |
| ScheduleText.AssembleShape | cronschedule.go:433-459 | assembling the fields never reports a field-count error, and a success has one value list per field, none from an empty field |
| ScheduleText.AssembleStep | cronschedule.go:433-458 | one field step: an empty field is the empty-field error naming the field; otherwise that field's values are appended, or its error or abort is the result |
| ScheduleText.AssembleStops | cronschedule.go:436-455 | once a field fails, the later fields do not change the outcome |
| ScheduleText.CollectStep | cronschedule.go:449-458 | one token step: its values are appended, or its error (wrapped with field and token) or abort is the result |
| ScheduleText.CollectStops | cronschedule.go:452-455 | once a token fails, the later tokens do not change the outcome |
| ScheduleText.TokensValuesInDomain | cronschedule.go:449-458 | a field's combined token values lie within that field's domain |
| ScheduleText.CountedAppend | cronschedule.go:449-458 | adding token lists one after the other equals adding their concatenation |
| ScheduleText.KeepDays | cronschedule.go:470-479 | the wildcard table: both day maps are kept unless exactly one of the two day fields is "*", and then the map of the "*" field is dropped |
| CronSchedule.Schedule.Empty | cronschedule.go:396-415 | every map, token list and slice is empty and the schedule text is "" |
| CronSchedule.Schedule.AddMinutes | cronschedule.go:289-301 | the minute map becomes the counted map (out-of-domain values dropped, new keys 1, existing keys incremented); nothing else changes |
| CronSchedule.Schedule.AddHours | cronschedule.go:304-316 | the same for the hour map |
| CronSchedule.Schedule.AddDaysOfMonth | cronschedule.go:319-331 | the same for the day-of-month map |
| CronSchedule.Schedule.AddMonths | cronschedule.go:334-346 | the same for the month map |
| CronSchedule.Schedule.AddDaysOfTheWeek | cronschedule.go:349-361 | the same for the day-of-week map |
| CronSchedule.Schedule.AddByIndex | cronschedule.go:364-377 | the map of field `index` is counted, the others are unchanged; an unknown index changes nothing |
| CronSchedule.Schedule.AddFieldStrByIndex | cronschedule.go:380-393 | the token is appended to the list of field `index` only; an unknown index changes nothing |
| CronSchedule.Schedule.BuildSlices | cronschedule.go:486-492 | each slice becomes the ascending, duplicate-free list of exactly its map's keys |
| CronSchedule.Schedule.ValidTables | cronschedule.go:486-492 | a valid schedule's minute, hour and month slices are strictly ascending and within their domains |
| CronSchedule.Schedule.ShouldExecute | cronschedule.go:79-100 | the schedule fires at t exactly when its minute, hour and month keys are present and its day is listed by day of month or by weekday; its partner is `ShouldExecuteAgrees` |
| CronSchedule.Schedule.ShouldExecuteAgrees | cronschedule.go:79-100 | on a valid schedule, `ShouldExecute` holds iff the instant is built from the slices with the day listed by day of month or by weekday |
| CronSchedule.Schedule.NextExecutions | cronschedule.go:177-250 | a negative count, on which `make` panics, is reported as such; every time returned is valid, fires by `ShouldExecute`, and lies after t; the times strictly ascend with no firing time skipped up to the last; a complete run with count > 0 returns exactly count times, and with count 0 all firing times of the first year that has one; reaching the horizon means fewer than count times (none for count 0) and every firing time before it was returned |
| CronSchedule.Schedule.NextExecution | cronschedule.go:254-257 | a returned time fires and is the earliest firing time after t; none means nothing fires after t before the horizon |
| CronSchedule.ParseToken | cronschedule.go:449-458 | the token is recorded in its field's list; its values are what `FieldValue` gives, and on success they are counted into that field's map |
| CronSchedule.ParseTokens | cronschedule.go:449-458 | the loop over a field's tokens succeeds, errs and aborts as the pure fold does; on success the map holds the combined values and the list holds all tokens |
| CronSchedule.ParseField | cronschedule.go:433-458 | an empty field is the empty-field error; otherwise the field's outcome is as specified, and on success its map and list are updated |
| CronSchedule.ParseFields | cronschedule.go:433-459 | the loop over the five fields has the outcome of the pure assembly; on success all maps and lists are as recorded from the values |
| CronSchedule.ApplyDayRule | cronschedule.go:470-479 | each day map is kept or emptied as the wildcard table says; nothing else changes |
| CronSchedule.ParsedInDomain | cronschedule.go:289-361 | every key of every map of a parsed schedule lies in its field's domain |
| CronSchedule.FieldsRecorded | cronschedule.go:380-393 | the recorded maps and lists are, field by field, the counted values and the comma-split tokens |
| CronSchedule.FinishParse | cronschedule.go:461-482 | after the day rule and `buildSlices` the schedule is parsed as the values say and is valid; the text is unchanged |
| CronSchedule.Parse | cronschedule.go:420-483 | the schedule text is the trimmed input; the error or abort is exactly that of the pure `ParseText`; on success the schedule holds the parsed values and is valid |
| Calendar.DaysPerMonth | cronschedule.go:260-276 | a month has between 28 and 31 days |
| Calendar.MonthLengths | cronschedule.go:260-276 | 31 days for months 1, 3, 5, 7, 8, 10, 12; 30 for 4, 6, 9, 11; February has 29 iff the year is a leap year, else 28 |
| Calendar.DaysBeforeSum | cronschedule.go:267-268 | day-of-year offsets add up the month lengths, and 31 December is day 366 exactly in leap years |
| Calendar.DaysFromCivilNext | cronschedule.go:92-94 | the day count of the next date is one more |
| Calendar.WeekdayNext | cronschedule.go:92-94 | 1970-01-01 is a Thursday, and each next date has the next weekday |
| Calendar.NextDate | cronschedule.go:229-246 | the day after a valid date is a valid date |
| Calendar.AddMinute | cronschedule.go:183 | one minute later is a valid instant after the given one |
| Calendar.AddMinuteIsNext | cronschedule.go:183 | the instants after t are exactly those not before t plus one minute |
| Calendar.BeforeOrder | cronschedule.go:177-250 | the order on instants is irreflexive, asymmetric, transitive and total |
| Search.KeyOrderIsTimeOrder | cronschedule.go:193-232 | on sorted slices the order of cursors is the order of the instants they denote |
| Search.MatchingMeansMatches | cronschedule.go:211-226 | a cursor passes the search's day test iff its instant matches the schedule |
| Search.EmittedAscending | cronschedule.go:211-226 | the instants the search emits strictly ascend |
| Search.EmittedUpToLast | cronschedule.go:193-232 | every matching instant from the start up to the last one emitted has been emitted |
| Engine.StallExample | cronschedule.go:150-154 | the slices of "0 15 * * *" with the search starting at 15:30 are an input on which the minute loop never advances |
| Engine.ComputeStartValuesAsWritten | cronschedule.go:110-174 | as written: no result exactly on the inputs where the minute loop stalls; otherwise a start cursor as below |
| Engine.ComputeStartValues | cronschedule.go:110-174 | the start cursor is in the year of t + 1 minute, or is 1 January of the next year; no matching instant before it is at or after t + 1 minute, and it is not earlier than t + 1 minute |
| Engine.SearchMinutes | cronschedule.go:211-226 | the minute loop emits the matching minutes of the hour in order, stopping when count results exist |
| Engine.SearchHours | cronschedule.go:207-230 | the hour loop does the same over the hours of a matching day |
| Engine.SearchDays | cronschedule.go:201-236 | the day loop skips days that fail the day test and emits the others, up to the month's length |
| Engine.SearchMonths | cronschedule.go:196-245 | the month loop does the same over the months of a year |
| Engine.SearchYears | cronschedule.go:190-247 | the year loop enumerates whole years until count results exist or the horizon is reached; with count 0 it runs to the end of the first year with a match |
| Engine.SearchResult | cronschedule.go:177-250 | what the enumeration emits matches, lies after t, ascends, and misses no matching instant up to the last emitted or before the frontier year |
| Engine.ExecutionsOutcome | cronschedule.go:190-219 | the three endings mean what `NextExecutions` promises, including count 0 giving all matches of the first matching year |
| Engine.NextExecutions | cronschedule.go:177-250 | count < 0, where `make` panics, ends as `NegativeCount` with nothing; results match, lie after t, strictly ascend and skip nothing; exactly count results for count > 0; for count 0, all matches of one year; at the horizon, every match before it |
| Engine.NextExecution | cronschedule.go:254-257 | the earliest matching instant after t, or none before the horizon |
| Scenarios.WeekdayFieldTexts | cronschedule.go:423-429 | the text "0 22 * * 1-5" trims to itself and splits on spaces into its five fields |
| Scenarios.MinuteValue | cronschedule.go:494-643 | the minute token `0` gives exactly minute 0 |
| Scenarios.HourValue | cronschedule.go:494-643 | the hour token `22` gives exactly hour 22 |
| Scenarios.WildcardValues | cronschedule.go:494-643 | `*` gives every day of the month and every month |
| Scenarios.WeekdayToken | data_test.go:13-24 | the day-of-week token `1-5` gives Monday to Friday |
| Scenarios.WeekdayParseText | cronschedule.go:417-483 | the pure parse of data_test entry 0 succeeds with minute 0, hour 22, all days, all months and weekdays 1-5 |
| Scenarios.WeekdayParsed | cronschedule.go:461-482 | a schedule parsed from those values has the slices [0], [22], months 1-12, an emptied day-of-month map (the day rule, since only day-of-month is `*`) and weekdays 1-5 |
| Scenarios.TestWeekdays | data_test.go:13-24 | 2020-07-23 is a Thursday, 07-25 and 07-26 are the weekend, and 07-27 is a Monday |
| Scenarios.RunsFollow | cronschedule.go:177-250 | runs that ascend after t, skip no match up to their last, and agree with a list in which each entry is the next match after the previous one, equal that list entry by entry |
| Scenarios.ContractDeterminesRuns | cronschedule.go:177-250 | the contract of `NextExecutions` with count n, and n known consecutive matches after t before the horizon, fixes the output to exactly those n times with a complete ending |
| Scenarios.WeekdayRunsAre | data_test.go:13-24 | five runs of "0 22 * * 1-5" after 2020-07-23 15:28 are 22:00 on July 23, 24, 27, 28 and 29 |
| Scenarios.WeekdayFirstIs | cronschedule.go:252-257 | the next run after 2020-07-23 15:28 is 2020-07-23 22:00 |
| Scenarios.WeekdaySchedule | data_test.go:13-24 | `Parse` on data_test entry 0 succeeds, `NextExecutions` with count 5 from 2020-07-23 15:28 returns the five expected times, and `NextExecution` returns the first of them |
| FieldTokens.AboveMaxExample | cronschedule.go:682-704 | the minute token `70` is rejected because it lies above the field's maximum |
| FieldTokens.GeneratorErrorExamples | cronschedule.go:682-704 | `5-1` is an invalid range, `*/0` an invalid interval, and a day-of-month `0` lies below the field's minimum |
| Engine.StartHours | cronschedule.go:138-160 | the corrected hour and minute loops give the first listed hour and minute of the day from those of `s` on, with nothing matching skipped before it, or report that the day has none left |
| Engine.StartHoursAsWritten | cronschedule.go:138-160 | as written: the loops stall exactly when the month, day and hour of `s` match and the first listed minute is below the minute of `s`; otherwise they give what `StartHours` gives |

## Left out

- `PrettyString` and every error text: errors are an enumeration that carries the field name, token and generator error, not a formatted message.
- The regular expression engine: `FieldTokens.Classify` recognises the six shapes the anchored expression accepts. Its soundness and completeness are proved against their rendering.
- The library internals of `strings.TrimSpace`, `strings.Split` and `strconv.Atoi`: each is a small pure function with its behaviour stated. `Atoi` is applied only to digit strings, which is all the classifier hands it.
- `ShouldExecuteNow` and `time.Now`: they read the wall clock.
- Time zones, daylight saving, seconds and nanoseconds: instants are naive local minutes. Go's `t.Add(1*time.Minute)` is `Calendar.AddMinute` and `Weekday()` is a Gregorian formula.
- The discarded `t.Add` on line 181: it has no effect.
- Panics: they become the `Abort` outcome, and the panic of `make` on a negative count in `NextExecutions` (line 179) becomes the `NegativeCount` ending. The unknown-month panic of `daysPerMonth` becomes the precondition `1 <= month <= 12`, which every caller meets.
- `Fields.FieldMinMaxByIndex`: the error branch is modelled, but `Parse` never reaches it with an index outside 0..4.
- `Engine.NextExecutions`: Go's year loop has no bound. The model stops after `maxYears` years and reports `HorizonReached`. Without the cut, the search runs forever when no instant ever matches.
- Engine.ComputeStartValues: uses the corrected minute loop (`minuteIdx++`), so it returns a start cursor on the `Engine.StartStalls` inputs, where Go's `computeStartValues` loops for ever (for example "* * * * *" at a time whose next minute is not on the hour).
- Engine.NextExecutions: built on the corrected start, so it returns results exactly on the `Engine.StartStalls` inputs of `t + 1 minute`, where Go never returns.
- Engine.NextExecution: returns a result on the `Engine.StartStalls` inputs, where Go never returns, because it calls `Engine.NextExecutions`.
- CronSchedule.Schedule.NextExecutions: returns results on the `Engine.StartStalls` inputs, where Go never returns, because it calls `Engine.NextExecutions`.
- CronSchedule.Schedule.NextExecution: returns a result on the `Engine.StartStalls` inputs, where Go never returns, because it calls `Engine.NextExecution`.
- Generator.ValueSliceContract: states the progression in unbounded arithmetic. When `rangeEnd + interval` exceeds 2^63 - 1, Go's `value + interval` wraps and its success branch returns values that do not ascend and leave the field's domain (second "## Findings" row, `Generator.GoValueLoop`).
- Generator.GenerateValueSlice: uses unbounded arithmetic, so it returns only the progression up to `rangeEnd` where Go's loop wraps past 2^63 - 1; for `3, 3, 2^63 - 1` it returns [3] where Go returns [3, 2 - 2^63, 1, -2^63, -1].
- FieldTokens.ParseFieldValue: passes the token to the unbounded generator, so on a token such as `3-3/9223372036854775807` it returns [3] where Go returns the wrapped list.
- FieldTokens.FieldValueInDomain: holds of the unbounded model only; Go's `ParseFieldValue` on `3-3/9223372036854775807` succeeds with values that do not ascend and lie outside [0, 59].
- ScheduleText.TokensValuesInDomain: holds of the unbounded model only; on an interval token that overflows, Go's combined token values leave the field's domain before the `Add*` methods filter them.
- CronSchedule.Parse: its maps hold the unbounded values, so for `3-3/9223372036854775807 * * * *` it keeps minute 3 only, where Go keeps minutes 1 and 3.
- The engine reads a snapshot of the schedule's slices and day-map keys (`Search.Tables`); the schedule is not changed while it runs.
- The nested loops of `computeStartValues` and `NextExecutions` are split into one method per level. The labelled break becomes a `full` flag returned upward.
- `sortMapKeys`: `sort.Ints` is replaced by inserting each key into a sorted list. Only the result, the sorted key list of the map, is modelled.
- On failure `CronSchedule.Parse` returns the partly filled schedule, as Go does. Only the schedule text is stated for that case.
- Go returns the `Schedule` struct by value; here `Parse` returns a freshly allocated object.
- `cronschedule_test.go`: it calls `NextExecutionsV3` and `NextExecutionV3`, which the source does not define, and it only prints. `data_test.go` appears only in `scenarios.dfy`, which restates its entry 0 (its start 15:29 does not stall, since hour 15 is not listed). Entries 1-7 are not restated.

## Findings

| source | as written | input that shows it | evidently intended | confidence | as-written member | corrected member |
|---|---|---|---|---|---|---|
| cronschedule.go:150-154 | the minute loop tests `MinutesSlice[minuteIdx] < tMinute` but never increments `minuteIdx` | schedule "0 15 * * *" queried at 15:29 (start 15:30): minute 0 < 30 forever | `minuteIdx++` in the loop body, so the search moves to the first minute at or after the start | high (not executed) | Engine.ComputeStartValuesAsWritten, Engine.StallExample | Engine.ComputeStartValues |
| cronschedule.go:711-716 | `value = value + interval` on 64-bit `int` wraps around when `rangeEnd + interval` exceeds 2^63 - 1 | minute token `3-3/9223372036854775807` gives [3, 2 - 2^63, 1, -2^63, -1]; `AddMinutes` keeps 1, so the schedule also fires at minute 1 | stop after `rangeEnd` without overflow: the token means only minute 3 | high (not executed) | Generator.GoValueLoop, Generator.WrapAroundExample | Generator.GenerateValueSlice, Generator.ValueSliceContract |
