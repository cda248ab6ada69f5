/** The `Schedule` type (cronschedule.go:39-63): the value maps and slices
    a cron expression is parsed into, the methods that fill them, `Parse`,
    and the search for the instants the schedule fires at. */
module CronSchedule {
  import opened Wrappers
  import opened Text
  import opened Fields
  import opened Generator
  import opened FieldTokens
  import opened Counts
  import opened ScheduleText
  import opened Calendar
  import opened Search
  import Engine

  class Schedule {
    var minutes: map<int, int>
    var minutesStr: seq<string>
    var minutesSlice: seq<int>
    var hours: map<int, int>
    var hoursStr: seq<string>
    var hoursSlice: seq<int>
    var daysOfMonth: map<int, int>
    var daysOfMonthStr: seq<string>
    var daysOfMonthSlice: seq<int>
    var months: map<int, int>
    var monthsStr: seq<string>
    var monthsSlice: seq<int>
    var daysOfTheWeek: map<int, int>
    var daysOfTheWeekStr: seq<string>
    var daysOfWeekSlice: seq<int>
    var scheduleStr: string

    /** `EmptySchedule`: every map, list and slice empty. */
    constructor Empty()
      ensures forall i :: 0 <= i < FIELD_COUNT ==> Maps()[i] == map[] && Strs()[i] == []
      ensures minutesSlice == [] && hoursSlice == [] && daysOfMonthSlice == []
      ensures monthsSlice == [] && daysOfWeekSlice == []
      ensures scheduleStr == ""
    {
      minutes, minutesStr, minutesSlice := map[], [], [];
      hours, hoursStr, hoursSlice := map[], [], [];
      daysOfMonth, daysOfMonthStr, daysOfMonthSlice := map[], [], [];
      months, monthsStr, monthsSlice := map[], [], [];
      daysOfTheWeek, daysOfTheWeekStr, daysOfWeekSlice := map[], [], [];
      scheduleStr := "";
    }

    /** The five value maps in field order. */
    function Maps(): seq<map<int, int>>
      reads this`minutes, this`hours, this`daysOfMonth, this`months, this`daysOfTheWeek
    {
      [minutes, hours, daysOfMonth, months, daysOfTheWeek]
    }

    /** The five token lists in field order. */
    function Strs(): seq<seq<string>>
      reads this`minutesStr, this`hoursStr, this`daysOfMonthStr, this`monthsStr, this`daysOfTheWeekStr
    {
      [minutesStr, hoursStr, daysOfMonthStr, monthsStr, daysOfTheWeekStr]
    }

    /** Each slice holds its map's keys in ascending order. */
    ghost predicate SlicesBuilt()
      reads this
    {
      && SortedKeysOf(minutesSlice, minutes) && SortedKeysOf(hoursSlice, hours)
      && SortedKeysOf(daysOfMonthSlice, daysOfMonth) && SortedKeysOf(monthsSlice, months)
      && SortedKeysOf(daysOfWeekSlice, daysOfTheWeek)
    }

    /** What a parsed schedule satisfies: every key lies in its field's
        domain, and the slices are built from the maps. */
    ghost predicate Valid()
      reads this
    {
      && InDomain(minutes, MINUTE_MIN, MINUTE_MAX) && InDomain(hours, HOUR_MIN, HOUR_MAX)
      && InDomain(daysOfMonth, DAY_OF_MONTH_MIN, DAY_OF_MONTH_MAX) && InDomain(months, MONTH_MIN, MONTH_MAX)
      && InDomain(daysOfTheWeek, DAY_OF_WEEK_MIN, DAY_OF_WEEK_MAX)
      && SlicesBuilt()
    }

    /** What the search reads of the schedule. */
    function SearchTables(): Tables
      reads this
    {
      Tables(minutesSlice, hoursSlice, monthsSlice, daysOfMonth.Keys, daysOfTheWeek.Keys)
    }

    /** A valid schedule offers the search sorted slices of field values. */
    lemma ValidTables()
      requires Valid()
      ensures Sorted(SearchTables())
    {
      SortedKeysInRange(minutesSlice, minutes, MINUTE_MIN, MINUTE_MAX);
      SortedKeysInRange(hoursSlice, hours, HOUR_MIN, HOUR_MAX);
      SortedKeysInRange(monthsSlice, months, MONTH_MIN, MONTH_MAX);
    }

    method AddMinutes(values: seq<int>)
      modifies this`minutes
      ensures minutes == Counted(old(minutes), values, MINUTE_MIN, MINUTE_MAX)
    {
      minutes := CountInto(minutes, values, MINUTE_MIN, MINUTE_MAX);
    }

    method AddHours(values: seq<int>)
      modifies this`hours
      ensures hours == Counted(old(hours), values, HOUR_MIN, HOUR_MAX)
    {
      hours := CountInto(hours, values, HOUR_MIN, HOUR_MAX);
    }

    method AddDaysOfMonth(values: seq<int>)
      modifies this`daysOfMonth
      ensures daysOfMonth == Counted(old(daysOfMonth), values, DAY_OF_MONTH_MIN, DAY_OF_MONTH_MAX)
    {
      daysOfMonth := CountInto(daysOfMonth, values, DAY_OF_MONTH_MIN, DAY_OF_MONTH_MAX);
    }

    method AddMonths(values: seq<int>)
      modifies this`months
      ensures months == Counted(old(months), values, MONTH_MIN, MONTH_MAX)
    {
      months := CountInto(months, values, MONTH_MIN, MONTH_MAX);
    }

    method AddDaysOfTheWeek(values: seq<int>)
      modifies this`daysOfTheWeek
      ensures daysOfTheWeek == Counted(old(daysOfTheWeek), values, DAY_OF_WEEK_MIN, DAY_OF_WEEK_MAX)
    {
      daysOfTheWeek := CountInto(daysOfTheWeek, values, DAY_OF_WEEK_MIN, DAY_OF_WEEK_MAX);
    }

    /** `AddByIndex`: the values counted into the map of field `index`; an
        index that names no field changes nothing. */
    method AddByIndex(values: seq<int>, index: int)
      modifies this`minutes, this`hours, this`daysOfMonth, this`months, this`daysOfTheWeek
      ensures Maps() == if 0 <= index < FIELD_COUNT
                        then old(Maps())[index := Counted(old(Maps())[index], values, FieldMin(index), FieldMax(index))]
                        else old(Maps())
    {
      match index {
        case 0 => AddMinutes(values);
        case 1 => AddHours(values);
        case 2 => AddDaysOfMonth(values);
        case 3 => AddMonths(values);
        case 4 => AddDaysOfTheWeek(values);
        case _ =>
      }
    }

    /** `AddFieldStrByIndex`: the token appended to the list of field
        `index`; an index that names no field changes nothing. */
    method AddFieldStrByIndex(fieldStr: string, index: int)
      modifies this`minutesStr, this`hoursStr, this`daysOfMonthStr, this`monthsStr, this`daysOfTheWeekStr
      ensures Strs() == if 0 <= index < FIELD_COUNT then old(Strs())[index := old(Strs())[index] + [fieldStr]]
                        else old(Strs())
    {
      match index {
        case 0 => minutesStr := minutesStr + [fieldStr];
        case 1 => hoursStr := hoursStr + [fieldStr];
        case 2 => daysOfMonthStr := daysOfMonthStr + [fieldStr];
        case 3 => monthsStr := monthsStr + [fieldStr];
        case 4 => daysOfTheWeekStr := daysOfTheWeekStr + [fieldStr];
        case _ =>
      }
    }

    /** `buildSlices`: every slice set to its map's sorted keys. */
    method BuildSlices()
      modifies this`minutesSlice, this`hoursSlice, this`daysOfMonthSlice, this`monthsSlice, this`daysOfWeekSlice
      ensures SlicesBuilt()
    {
      var mi := SortMapKeys(minutes);
      var h := SortMapKeys(hours);
      var dm := SortMapKeys(daysOfMonth);
      var mo := SortMapKeys(months);
      var dw := SortMapKeys(daysOfTheWeek);
      minutesSlice, hoursSlice, daysOfMonthSlice, monthsSlice, daysOfWeekSlice := mi, h, dm, mo, dw;
    }

    /** `ShouldExecute` (cronschedule.go:78-100): minute, hour and month
        listed, and the day listed as a day of the month or as a day of the
        week. */
    predicate ShouldExecute(t: Instant)
      requires ValidInstant(t)
      reads this
    {
      && t.minute in minutes
      && t.hour in hours
      && t.month in months
      && (t.day in daysOfMonth || Weekday(t.year, t.month, t.day) in daysOfTheWeek)
    }

    /** On a valid schedule the maps and the slices the search walks agree
        on when the schedule fires. */
    lemma ShouldExecuteAgrees(t: Instant)
      requires Valid() && ValidInstant(t)
      ensures ShouldExecute(t) <==> Matches(SearchTables(), t)
    {
    }

    /** `NextExecutions` (cronschedule.go:175-250) on a parsed schedule:
        from the minute after `t`, the instants `ShouldExecute` accepts, in
        ascending order and without gaps; a positive count yields that many
        unless the search reaches `maxYears` years first. */
    method NextExecutions(t: Instant, count: int, maxYears: nat) returns (execTimes: seq<Instant>, ending: Engine.Ending)
      requires Valid() && ValidInstant(t)
      ensures (ending == Engine.NegativeCount) <==> count < 0
      ensures forall i :: 0 <= i < |execTimes| ==>
                ValidInstant(execTimes[i]) && ShouldExecute(execTimes[i]) && Before(t, execTimes[i])
      ensures forall i, j :: 0 <= i < j < |execTimes| ==> Before(execTimes[i], execTimes[j])
      ensures forall u :: (ValidInstant(u) && ShouldExecute(u) && Before(t, u) && |execTimes| > 0
                           && !Before(execTimes[|execTimes| - 1], u)) ==> u in execTimes
      ensures ending == Engine.NegativeCount ==> execTimes == []
      ensures ending == Engine.Complete && count > 0 ==> |execTimes| == count
      ensures ending == Engine.Complete && count == 0 ==>
        && |execTimes| > 0
        && (forall i :: 0 <= i < |execTimes| ==> execTimes[i].year == execTimes[0].year)
        && (forall u :: ValidInstant(u) && ShouldExecute(u) && Before(t, u) && u.year <= execTimes[0].year
                        ==> u in execTimes)
      ensures ending == Engine.HorizonReached ==>
        && (count == 0 ==> execTimes == [])
        && (count > 0 ==> |execTimes| < count)
        && (forall u :: ValidInstant(u) && ShouldExecute(u) && Before(t, u) && u.year < t.year + maxYears
                        ==> u in execTimes)
    {
      ValidTables();
      execTimes, ending := Engine.NextExecutions(SearchTables(), t, count, maxYears);
      forall u | ValidInstant(u) ensures ShouldExecute(u) <==> Matches(SearchTables(), u) {
        ShouldExecuteAgrees(u);
      }
    }

    /** `NextExecution` (cronschedule.go:252-257) on a parsed schedule: the
        first instant after `t` that `ShouldExecute` accepts, or `None` when
        there is none within `maxYears` years. */
    method NextExecution(t: Instant, maxYears: nat) returns (next: Option<Instant>)
      requires Valid() && ValidInstant(t)
      ensures next.Some? ==> ValidInstant(next.value) && ShouldExecute(next.value) && Before(t, next.value)
      ensures next.Some? ==> forall u :: ValidInstant(u) && ShouldExecute(u) && Before(t, u) ==> !Before(u, next.value)
      ensures next.None? ==>
        forall u :: ValidInstant(u) && ShouldExecute(u) && Before(t, u) ==> u.year >= t.year + maxYears
    {
      ValidTables();
      next := Engine.NextExecution(SearchTables(), t, maxYears);
      forall u | ValidInstant(u) ensures ShouldExecute(u) <==> Matches(SearchTables(), u) {
        ShouldExecuteAgrees(u);
      }
    }
  }

  /** Recording one more token extends the recorded prefix. */
  lemma ExtendPrefix(recorded: seq<string>, tokens: seq<string>, k: int)
    requires 0 <= k < |tokens|
    ensures recorded + tokens[..k] + [tokens[k]] == recorded + tokens[..k + 1]
  {
    assert tokens[..k + 1] == tokens[..k] + [tokens[k]];
  }

  /** A second update at the same position overrides the first. */
  lemma UpdateTwice<T>(s: seq<T>, i: int, a: T, b: T)
    requires 0 <= i < |s|
    ensures s[i := a][i] == a && s[i := a][i := b] == s[i := b]
  {
  }

  /** One token of field `index` (cronschedule.go:448-455): recorded in the
      field's token list, then parsed against the field's bounds, its
      values counted into the field's map when parsing succeeds. */
  method ParseToken(schedule: Schedule, token: string, index: int, min: int, max: int)
    returns (r: Outcome<seq<int>, FieldError>)
    requires 0 <= index < FIELD_COUNT && min == FieldMin(index) && max == FieldMax(index)
    modifies schedule`minutes, schedule`hours, schedule`daysOfMonth, schedule`months, schedule`daysOfTheWeek
    modifies schedule`minutesStr, schedule`hoursStr, schedule`daysOfMonthStr, schedule`monthsStr, schedule`daysOfTheWeekStr
    ensures r == FieldValue(token, min, max)
    ensures schedule.Strs() == old(schedule.Strs())[index := old(schedule.Strs())[index] + [token]]
    ensures schedule.Maps() == if r.Ok? then old(schedule.Maps())[index := Counted(old(schedule.Maps())[index], r.value, min, max)]
                               else old(schedule.Maps())
  {
    schedule.AddFieldStrByIndex(token, index);
    r := ParseFieldValue(token, min, max);
    if r.Ok? {
      schedule.AddByIndex(r.value, index);
    }
  }

  /** The token loop of `Parse` (cronschedule.go:447-456) over the
      comma-separated tokens of field `index`: each token recorded and its
      values counted into the field's map, until a token fails; the other
      fields keep their maps and lists. */
  method ParseTokens(schedule: Schedule, tokens: seq<string>, index: int) returns (r: Outcome<(), ParseError>)
    requires 0 <= index < FIELD_COUNT
    modifies schedule`minutes, schedule`hours, schedule`daysOfMonth, schedule`months, schedule`daysOfTheWeek
    modifies schedule`minutesStr, schedule`hoursStr, schedule`daysOfMonthStr, schedule`monthsStr, schedule`daysOfTheWeekStr
    ensures r.Ok? <==> TokensValues(tokens, index).Ok?
    ensures r.Abort? <==> TokensValues(tokens, index).Abort?
    ensures r.Err? ==> TokensValues(tokens, index) == Err(r.error)
    ensures r.Ok? ==>
      && schedule.Maps() == old(schedule.Maps())[index :=
           Counted(old(schedule.Maps())[index], TokensValues(tokens, index).value, FieldMin(index), FieldMax(index))]
      && schedule.Strs() == old(schedule.Strs())[index := old(schedule.Strs())[index] + tokens]
  {
    var bounds := FieldMinMaxByIndex(index).value;
    var min, max := bounds.0, bounds.1;
    ghost var results := TokenResults(tokens, index);
    ghost var name := FieldNameByIndex(index);
    ghost var maps0, strs0 := schedule.Maps(), schedule.Strs();
    assert Counted(maps0[index], [], min, max) == maps0[index];
    assert maps0[index := maps0[index]] == maps0;
    assert strs0[index] + tokens[..0] == strs0[index];
    assert strs0[index := strs0[index]] == strs0;
    var k := 0;
    while k < |tokens|
      invariant 0 <= k <= |tokens|
      invariant Collect(tokens, results, name, k).Ok?
      invariant schedule.Maps() == maps0[index := Counted(maps0[index], Collect(tokens, results, name, k).value, min, max)]
      invariant schedule.Strs() == strs0[index := strs0[index] + tokens[..k]]
    {
      var value := tokens[k];
      ghost var before := Collect(tokens, results, name, k).value;
      ExtendPrefix(strs0[index], tokens, k);
      UpdateTwice(strs0, index, strs0[index] + tokens[..k], strs0[index] + tokens[..k] + [value]);
      var fieldValues := ParseToken(schedule, value, index, min, max);
      CollectStep(tokens, results, name, k);
      if fieldValues.Err? {
        CollectStops(tokens, results, name, k + 1, |tokens|);
        return Err(BadValue(FieldNameByIndex(index), value, fieldValues.error));
      }
      if fieldValues.Abort? {
        CollectStops(tokens, results, name, k + 1, |tokens|);
        return Abort;
      }
      CountedAppend(maps0[index], before, fieldValues.value, min, max);
      UpdateTwice(maps0, index, Counted(maps0[index], before, min, max),
                  Counted(Counted(maps0[index], before, min, max), fieldValues.value, min, max));
      k := k + 1;
    }
    assert tokens[..k] == tokens;
    return Ok(());
  }

  /** The value maps once the first `|values|` fields are recorded with
      `values`, the others still empty. */
  ghost function RecordedMaps(values: seq<seq<int>>): seq<map<int, int>>
    requires |values| <= FIELD_COUNT
  {
    seq(FIELD_COUNT, j requires 0 <= j < FIELD_COUNT => if j < |values| then FieldMap(values[j], j) else map[])
  }

  /** The token lists once the first `n` of `fields` are recorded, the
      others still empty. */
  ghost function RecordedStrs(fields: seq<string>, n: nat): seq<seq<string>>
    requires |fields| == FIELD_COUNT && n <= FIELD_COUNT
  {
    seq(FIELD_COUNT, j requires 0 <= j < FIELD_COUNT => if j < n then Split(fields[j], ',') else [])
  }

  /** Recording one more field changes only that field's map and list. */
  lemma RecordedStep(fields: seq<string>, acc: seq<seq<int>>, values: seq<int>)
    requires |fields| == FIELD_COUNT && |acc| < FIELD_COUNT
    ensures var i := |acc|;
      RecordedMaps(acc + [values])
      == RecordedMaps(acc)[i := Counted(RecordedMaps(acc)[i], values, FieldMin(i), FieldMax(i))]
    ensures var i := |acc|;
      RecordedStrs(fields, i + 1) == RecordedStrs(fields, i)[i := RecordedStrs(fields, i)[i] + Split(fields[i], ',')]
  {
    assert forall j :: 0 <= j < |acc| ==> (acc + [values])[j] == acc[j];
    assert RecordedStrs(fields, |acc|)[|acc|] + Split(fields[|acc|], ',') == Split(fields[|acc|], ',');
  }

  /** Field `index` of `fields` in `Parse` (cronschedule.go:434-456): an
      empty field is an error, any other has its comma-separated tokens
      parsed, with the outcome `FieldResults` gives that field, recorded
      in that field's map and list only. */
  method ParseField(schedule: Schedule, fields: seq<string>, index: int) returns (r: Outcome<(), ParseError>)
    requires |fields| == FIELD_COUNT && 0 <= index < FIELD_COUNT
    modifies schedule`minutes, schedule`hours, schedule`daysOfMonth, schedule`months, schedule`daysOfTheWeek
    modifies schedule`minutesStr, schedule`hoursStr, schedule`daysOfMonthStr, schedule`monthsStr, schedule`daysOfTheWeekStr
    ensures fields[index] == "" ==> r == Err(EmptyField(FieldNameByIndex(index)))
    ensures fields[index] != "" ==>
      && (r.Ok? <==> FieldResults(fields)[index].Ok?) && (r.Abort? <==> FieldResults(fields)[index].Abort?)
      && (r.Err? ==> FieldResults(fields)[index] == Err(r.error))
    ensures r.Ok? ==>
      && schedule.Maps() == old(schedule.Maps())[index :=
           Counted(old(schedule.Maps())[index], FieldResults(fields)[index].value, FieldMin(index), FieldMax(index))]
      && schedule.Strs() == old(schedule.Strs())[index := old(schedule.Strs())[index] + Split(fields[index], ',')]
  {
    var field := fields[index];
    if field == "" {
      return Err(EmptyField(FieldNameByIndex(index)));
    }
    FieldResultsAt(fields, index);
    r := ParseTokens(schedule, Split(field, ','), index);
  }

  /** The field loop of `Parse` (cronschedule.go:431-457) over the five
      fields of a schedule whose maps and token lists are still empty:
      each field's tokens recorded and its values counted, until a field
      is empty or a token fails. */
  method ParseFields(schedule: Schedule, fields: seq<string>) returns (r: Outcome<(), ParseError>)
    requires |fields| == FIELD_COUNT
    requires schedule.Maps() == RecordedMaps([]) && schedule.Strs() == RecordedStrs(fields, 0)
    modifies schedule`minutes, schedule`hours, schedule`daysOfMonth, schedule`months, schedule`daysOfTheWeek
    modifies schedule`minutesStr, schedule`hoursStr, schedule`daysOfMonthStr, schedule`monthsStr, schedule`daysOfTheWeekStr
    ensures schedule.scheduleStr == old(schedule.scheduleStr)
    ensures r.Ok? <==> Assemble(fields, FieldResults(fields), |fields|).Ok?
    ensures r.Abort? <==> Assemble(fields, FieldResults(fields), |fields|).Abort?
    ensures r.Err? ==> Assemble(fields, FieldResults(fields), |fields|) == Err(r.error)
    ensures r.Ok? ==>
      var values := Assemble(fields, FieldResults(fields), |fields|).value;
      && |values| == FIELD_COUNT
      && schedule.Maps() == RecordedMaps(values) && schedule.Strs() == RecordedStrs(fields, FIELD_COUNT)
  {
    ghost var results := FieldResults(fields);
    ghost var acc: seq<seq<int>> := [];
    var i := 0;
    while i < |fields|
      invariant 0 <= i <= FIELD_COUNT && |acc| == i
      invariant Assemble(fields, results, i) == Ok(acc)
      invariant schedule.Maps() == RecordedMaps(acc) && schedule.Strs() == RecordedStrs(fields, i)
    {
      AssembleStep(fields, results, i);
      var fieldResult := ParseField(schedule, fields, i);
      if !fieldResult.Ok? {
        AssembleStops(fields, results, i + 1, |fields|);
        return fieldResult;
      }
      RecordedStep(fields, acc, results[i].value);
      acc := acc + [results[i].value];
      i := i + 1;
    }
    return Ok(());
  }

  /** The day rule of `Parse` (cronschedule.go:459-479): a day map is
      emptied where its field is `*` and the other day field is not. */
  method ApplyDayRule(schedule: Schedule, dayOfMonthField: string, dayOfWeekField: string)
    modifies schedule`daysOfMonth, schedule`daysOfTheWeek
    ensures schedule.daysOfMonth == if KeepDays(dayOfMonthField, dayOfWeekField).0 then old(schedule.daysOfMonth) else map[]
    ensures schedule.daysOfTheWeek == if KeepDays(dayOfMonthField, dayOfWeekField).1 then old(schedule.daysOfTheWeek) else map[]
  {
    if dayOfMonthField == "*" && dayOfWeekField == "*" {
      // both day maps stay
    }
    if dayOfMonthField == "*" && dayOfWeekField != "*" {
      schedule.daysOfMonth := map[];
    }
    if dayOfMonthField != "*" && dayOfWeekField == "*" {
      schedule.daysOfTheWeek := map[];
    }
  }

  /** The maps and token lists `Parse` leaves in `schedule` for the five
      `fields` with `values`: each map counts its field's values, a day map
      is empty where the day rule drops it, and each token list holds its
      field's comma-separated tokens. */
  ghost predicate ParsedAs(schedule: Schedule, fields: seq<string>, values: seq<seq<int>>)
    requires |fields| == FIELD_COUNT && |values| == FIELD_COUNT
    reads schedule`minutes, schedule`hours, schedule`daysOfMonth, schedule`months, schedule`daysOfTheWeek
    reads schedule`minutesStr, schedule`hoursStr, schedule`daysOfMonthStr, schedule`monthsStr, schedule`daysOfTheWeekStr
  {
    var keep := KeepDays(fields[2], fields[4]);
    && schedule.minutes == FieldMap(values[0], 0)
    && schedule.hours == FieldMap(values[1], 1)
    && schedule.daysOfMonth == (if keep.0 then FieldMap(values[2], 2) else map[])
    && schedule.months == FieldMap(values[3], 3)
    && schedule.daysOfTheWeek == (if keep.1 then FieldMap(values[4], 4) else map[])
    && schedule.minutesStr == Split(fields[0], ',') && schedule.hoursStr == Split(fields[1], ',')
    && schedule.daysOfMonthStr == Split(fields[2], ',') && schedule.monthsStr == Split(fields[3], ',')
    && schedule.daysOfTheWeekStr == Split(fields[4], ',')
  }

  /** The maps `Parse` leaves hold only values of their fields. */
  lemma ParsedInDomain(schedule: Schedule, fields: seq<string>, values: seq<seq<int>>)
    requires |fields| == FIELD_COUNT && |values| == FIELD_COUNT && ParsedAs(schedule, fields, values)
    ensures InDomain(schedule.minutes, MINUTE_MIN, MINUTE_MAX) && InDomain(schedule.hours, HOUR_MIN, HOUR_MAX)
    ensures InDomain(schedule.daysOfMonth, DAY_OF_MONTH_MIN, DAY_OF_MONTH_MAX)
    ensures InDomain(schedule.months, MONTH_MIN, MONTH_MAX)
    ensures InDomain(schedule.daysOfTheWeek, DAY_OF_WEEK_MIN, DAY_OF_WEEK_MAX)
  {
    forall j | 0 <= j < FIELD_COUNT ensures InDomain(FieldMap(values[j], j), FieldMin(j), FieldMax(j)) {
      CountedInDomain(map[], values[j], FieldMin(j), FieldMax(j));
    }
  }

  /** Fields recorded by `ParseFields`, field by field. */
  lemma FieldsRecorded(schedule: Schedule, fields: seq<string>, values: seq<seq<int>>)
    requires |fields| == FIELD_COUNT && |values| == FIELD_COUNT
    requires schedule.Maps() == RecordedMaps(values) && schedule.Strs() == RecordedStrs(fields, FIELD_COUNT)
    ensures schedule.minutes == FieldMap(values[0], 0) && schedule.hours == FieldMap(values[1], 1)
    ensures schedule.daysOfMonth == FieldMap(values[2], 2) && schedule.months == FieldMap(values[3], 3)
    ensures schedule.daysOfTheWeek == FieldMap(values[4], 4)
    ensures schedule.minutesStr == Split(fields[0], ',') && schedule.hoursStr == Split(fields[1], ',')
    ensures schedule.daysOfMonthStr == Split(fields[2], ',') && schedule.monthsStr == Split(fields[3], ',')
    ensures schedule.daysOfTheWeekStr == Split(fields[4], ',')
  {
    assert schedule.Maps()[0] == schedule.minutes && schedule.Strs()[0] == schedule.minutesStr;
    assert schedule.Maps()[1] == schedule.hours && schedule.Strs()[1] == schedule.hoursStr;
    assert schedule.Maps()[2] == schedule.daysOfMonth && schedule.Strs()[2] == schedule.daysOfMonthStr;
    assert schedule.Maps()[3] == schedule.months && schedule.Strs()[3] == schedule.monthsStr;
    assert schedule.Maps()[4] == schedule.daysOfTheWeek && schedule.Strs()[4] == schedule.daysOfTheWeekStr;
  }

  /** The tail of `Parse` (cronschedule.go:459-482) once every field is
      recorded: the day rule applied and the slices built. */
  method FinishParse(schedule: Schedule, fields: seq<string>, ghost values: seq<seq<int>>)
    requires |fields| == FIELD_COUNT && |values| == FIELD_COUNT
    requires schedule.Maps() == RecordedMaps(values) && schedule.Strs() == RecordedStrs(fields, FIELD_COUNT)
    modifies schedule`daysOfMonth, schedule`daysOfTheWeek
    modifies schedule`minutesSlice, schedule`hoursSlice, schedule`daysOfMonthSlice, schedule`monthsSlice, schedule`daysOfWeekSlice
    ensures schedule.scheduleStr == old(schedule.scheduleStr)
    ensures ParsedAs(schedule, fields, values) && schedule.Valid()
  {
    FieldsRecorded(schedule, fields, values);
    ApplyDayRule(schedule, fields[2], fields[4]);
    ParsedInDomain(schedule, fields, values);
    schedule.BuildSlices();
  }

  /** `Parse` (cronschedule.go:417-483): the schedule built from the
      trimmed text, and the outcome `ParseText` describes. On success the
      schedule holds what `ParsedAs` describes for the text's fields and
      values, and its slices are built: it is `Valid`. */
  method Parse(text: string) returns (schedule: Schedule, result: Outcome<(), ParseError>)
    ensures fresh(schedule) && schedule.scheduleStr == TrimSpace(text)
    ensures result.Ok? <==> ParseText(text).Ok?
    ensures result.Abort? <==> ParseText(text).Abort?
    ensures result.Err? ==> ParseText(text) == Err(result.error)
    ensures result.Ok? ==>
      && |FieldTexts(text)| == FIELD_COUNT && |ParseText(text).value| == FIELD_COUNT
      && ParsedAs(schedule, FieldTexts(text), ParseText(text).value)
      && schedule.Valid()
  {
    schedule := new Schedule.Empty();
    var trimmed := TrimSpace(text);
    schedule.scheduleStr := trimmed;
    var fields := Split(trimmed, ' ');
    if |fields| != FIELD_COUNT {
      return schedule, Err(WrongFieldCount(|fields|));
    }
    assert schedule.Maps() == RecordedMaps([]) && schedule.Strs() == RecordedStrs(fields, 0);
    result := ParseFields(schedule, fields);
    assert ParseText(text) == Assemble(fields, FieldResults(fields), |fields|);
    if !result.Ok? {
      return;
    }
    FinishParse(schedule, fields, Assemble(fields, FieldResults(fields), |fields|).value);
  }
}
