/** A worked example from the repository's test data (data_test.go, entry
    0): the schedule "0 22 * * 1-5" parsed token by token, the tables the
    search reads of it, and the five runs `NextExecutions` and the first
    run `NextExecution` return after 2020-07-23 15:28. */
module Scenarios {
  import opened Wrappers
  import opened Text
  import opened Fields
  import opened Generator
  import opened FieldTokens
  import opened Counts
  import opened ScheduleText
  import opened Calendar
  import opened Search
  import Engine
  import opened CronSchedule

  const WEEKDAY_TEXT: string := "0 22 * * 1-5"

  function WeekdayFields(): seq<string> {
    ["0", "22", "*", "*", "1-5"]
  }

  function WeekdayValues(): seq<seq<int>> {
    [[0], [22], Progression(1, 31, 1), Progression(1, 12, 1), [1, 2, 3, 4, 5]]
  }

  lemma WeekdayFieldTexts()
    ensures FieldTexts(WEEKDAY_TEXT) == WeekdayFields()
  {
    var text := WEEKDAY_TEXT;
    assert TrimLeft(text) == text;
    assert TrimRight(text) == text;
    var fields := WeekdayFields();
    assert Join(fields[4..], ' ') == "1-5";
    assert Join(fields[3..], ' ') == "* 1-5";
    assert Join(fields[2..], ' ') == "* * 1-5";
    assert Join(fields[1..], ' ') == "22 * * 1-5";
    assert Join(fields, ' ') == text;
    SplitJoin(fields, ' ');
  }

  lemma MinuteValue()
    ensures FieldValue("0", MINUTE_MIN, MINUTE_MAX) == Ok([0])
  {
    ClassifyComplete(Literal("0"));
    assert Classify("0") == Some(Literal("0"));
    assert "0"[..0] == [];
    assert DigitsValue("0") == 0;
    assert Atoi("0") == Some(0);
    assert Progression(1, 0, 1) == [];
    assert Progression(0, 0, 1) == [0];
    assert ShapeValue(Literal("0"), MINUTE_MIN, MINUTE_MAX) == Ok([0]);
  }

  lemma HourValue()
    ensures FieldValue("22", HOUR_MIN, HOUR_MAX) == Ok([22])
  {
    ClassifyComplete(Literal("22"));
    assert Classify("22") == Some(Literal("22"));
    assert "22"[..1] == "2" && "2"[..0] == [];
    assert DigitsValue("2") == 2;
    assert DigitsValue("22") == 22;
    assert Atoi("22") == Some(22);
    assert Progression(23, 22, 1) == [];
    assert Progression(22, 22, 1) == [22];
    assert ShapeValue(Literal("22"), HOUR_MIN, HOUR_MAX) == Ok([22]);
  }

  lemma WildcardValues()
    ensures FieldValue("*", DAY_OF_MONTH_MIN, DAY_OF_MONTH_MAX) == Ok(Progression(1, 31, 1))
    ensures FieldValue("*", MONTH_MIN, MONTH_MAX) == Ok(Progression(1, 12, 1))
  {
    ShapeMeaning(DAY_OF_MONTH_MIN, DAY_OF_MONTH_MAX, "", "", "");
    ShapeMeaning(MONTH_MIN, MONTH_MAX, "", "", "");
  }

  lemma WeekdayToken()
    ensures FieldValue("1-5", DAY_OF_WEEK_MIN, DAY_OF_WEEK_MAX) == Ok([1, 2, 3, 4, 5])
  {
    ClassifyComplete(Span("1", "5"));
    assert Render(Span("1", "5")) == "1-5";
    assert DigitsValue("1") == 1 && DigitsValue("5") == 5;
    assert Progression(6, 5, 1) == [];
    assert Progression(5, 5, 1) == [5];
    assert Progression(4, 5, 1) == [4, 5];
    assert Progression(3, 5, 1) == [3, 4, 5];
    assert Progression(2, 5, 1) == [2, 3, 4, 5];
    assert Progression(1, 5, 1) == [1, 2, 3, 4, 5];
  }

  lemma SingleToken(token: string, index: int, values: seq<int>)
    requires 0 <= index < FIELD_COUNT && ',' !in token
    requires FieldValue(token, FieldMin(index), FieldMax(index)) == Ok(values)
    ensures TokensValues(Split(token, ','), index) == Ok(values)
  {
    var tokens := Split(token, ',');
    assert tokens == [token];
    var results := TokenResults(tokens, index);
    assert results[0] == Ok(values);
    var name := FieldNameByIndex(index);
    assert Collect(tokens, results, name, 0) == Ok([]);
    assert [] + values == values;
    assert Collect(tokens, results, name, 1) == Ok(values);
  }

  /** Five non-empty fields that each yield their values assemble into
      the list of those values. */
  lemma {:induction false} AssembleAllOk(fields: seq<string>, results: seq<Outcome<seq<int>, ParseError>>,
                                         values: seq<seq<int>>, n: nat)
    requires |fields| == |results| == |values| == FIELD_COUNT && n <= FIELD_COUNT
    requires forall i :: 0 <= i < FIELD_COUNT ==> fields[i] != "" && results[i] == Ok(values[i])
    ensures Assemble(fields, results, n) == Ok(values[..n])
  {
    if n > 0 {
      AssembleAllOk(fields, results, values, n - 1);
      assert values[..n - 1] + [values[n - 1]] == values[..n];
    }
  }

  /** Each field of "0 22 * * 1-5" is one token, which yields the field's
      values. */
  lemma WeekdayTokensValues(fields: seq<string>, values: seq<seq<int>>)
    requires fields == WeekdayFields() && values == WeekdayValues()
    ensures TokensValues(Split(fields[0], ','), 0) == Ok(values[0])
    ensures TokensValues(Split(fields[1], ','), 1) == Ok(values[1])
    ensures TokensValues(Split(fields[2], ','), 2) == Ok(values[2])
    ensures TokensValues(Split(fields[3], ','), 3) == Ok(values[3])
    ensures TokensValues(Split(fields[4], ','), 4) == Ok(values[4])
  {
    MinuteValue();
    HourValue();
    WildcardValues();
    WeekdayToken();
    SingleToken(fields[0], 0, values[0]);
    SingleToken(fields[1], 1, values[1]);
    SingleToken(fields[2], 2, values[2]);
    SingleToken(fields[3], 3, values[3]);
    SingleToken(fields[4], 4, values[4]);
  }

  /** Each field of "0 22 * * 1-5" yields its values. */
  lemma WeekdayFieldResults(fields: seq<string>, values: seq<seq<int>>)
    requires fields == WeekdayFields() && values == WeekdayValues()
    ensures FieldResults(fields)[0] == Ok(values[0]) && FieldResults(fields)[1] == Ok(values[1])
    ensures FieldResults(fields)[2] == Ok(values[2]) && FieldResults(fields)[3] == Ok(values[3])
    ensures FieldResults(fields)[4] == Ok(values[4])
  {
    WeekdayTokensValues(fields, values);
    FieldResultsAt(fields, 0);
    FieldResultsAt(fields, 1);
    FieldResultsAt(fields, 2);
    FieldResultsAt(fields, 3);
    FieldResultsAt(fields, 4);
  }

  /** The five fields of "0 22 * * 1-5" assemble into their values. */
  lemma WeekdayAssemble(fields: seq<string>, values: seq<seq<int>>)
    requires fields == WeekdayFields() && values == WeekdayValues()
    ensures Assemble(fields, FieldResults(fields), FIELD_COUNT) == Ok(values)
  {
    WeekdayFieldResults(fields, values);
    forall i | 0 <= i < FIELD_COUNT ensures fields[i] != "" && FieldResults(fields)[i] == Ok(values[i]) {
      if i == 0 {
      } else if i == 1 {
      } else if i == 2 {
      } else if i == 3 {
      }
    }
    AssembleAllOk(fields, FieldResults(fields), values, FIELD_COUNT);
    assert values[..FIELD_COUNT] == values;
  }

  lemma WeekdayParseText()
    ensures FieldTexts(WEEKDAY_TEXT) == WeekdayFields()
    ensures ParseText(WEEKDAY_TEXT) == Ok(WeekdayValues())
  {
    WeekdayFieldTexts();
    WeekdayAssemble(WeekdayFields(), WeekdayValues());
  }

  /** What the search reads of "0 22 * * 1-5" once parsed: the wildcard
      day-of-month field gives way to the weekdays. */
  function WeekdayTables(): Tables {
    Tables([0], [22], [1, 2, 3, 4, 5, 6, 7, 8, 9, 10, 11, 12], {}, {1, 2, 3, 4, 5})
  }

  /** The keys left after counting `values` into an empty map. */
  lemma CountedKeys(values: seq<int>, lo: int, hi: int, keys: set<int>)
    requires forall x :: x in keys <==> x in values && lo <= x <= hi
    ensures Counted(map[], values, lo, hi).Keys == keys
  {
    var r := Counted(map[], values, lo, hi);
    CountedMeaning(map[], values, lo, hi);
    assert forall x :: x in r.Keys <==> x in keys;
  }

  /** The sorted key slice of the map counted from `values` is the one
      ascending list of the values that lie in the domain. */
  lemma SliceOfCounted(list: seq<int>, values: seq<int>, lo: int, hi: int, sorted: seq<int>)
    requires SortedKeysOf(list, Counted(map[], values, lo, hi)) && StrictlyIncreasing(sorted)
    requires forall x :: x in sorted <==> x in values && lo <= x <= hi
    ensures list == sorted
  {
    CountedMeaning(map[], values, lo, hi);
    SortedUnique(list, sorted);
  }

  /** The months of the wildcard month field, written out. */
  lemma AllMonths()
    ensures Progression(1, 12, 1) == [1, 2, 3, 4, 5, 6, 7, 8, 9, 10, 11, 12]
  {
  }

  /** The slice of the wildcard month field's map is all twelve months. */
  lemma AllMonthsSlice(list: seq<int>)
    requires SortedKeysOf(list, Counted(map[], Progression(1, 12, 1), MONTH_MIN, MONTH_MAX))
    ensures list == [1, 2, 3, 4, 5, 6, 7, 8, 9, 10, 11, 12]
  {
    var months := Progression(1, 12, 1);
    ProgressionIsProgression(1, 12, 1);
    SliceOfCounted(list, months, MONTH_MIN, MONTH_MAX, months);
    AllMonths();
  }

  /** The map of the day-of-week field "1-5" holds Monday to Friday. */
  lemma WeekdayKeys()
    ensures Counted(map[], [1, 2, 3, 4, 5], DAY_OF_WEEK_MIN, DAY_OF_WEEK_MAX).Keys == {1, 2, 3, 4, 5}
  {
    CountedKeys([1, 2, 3, 4, 5], DAY_OF_WEEK_MIN, DAY_OF_WEEK_MAX, {1, 2, 3, 4, 5});
  }

  /** A schedule `Parse` leaves for "0 22 * * 1-5" presents exactly
      `WeekdayTables` to the search. */
  lemma WeekdayParsed(s: Schedule)
    requires ParsedAs(s, WeekdayFields(), WeekdayValues()) && s.Valid()
    ensures s.SearchTables() == WeekdayTables()
  {
    assert KeepDays("*", "1-5") == (false, true);
    SliceOfCounted(s.minutesSlice, [0], MINUTE_MIN, MINUTE_MAX, [0]);
    SliceOfCounted(s.hoursSlice, [22], HOUR_MIN, HOUR_MAX, [22]);
    AllMonthsSlice(s.monthsSlice);
    WeekdayKeys();
  }

  /** The day numbers of the week the test data starts in, counted from
      1970-01-01. */
  lemma JulyDayNumbers()
    ensures DaysFromCivil(2020, 7, 23) == 18466 && DaysFromCivil(2020, 7, 24) == 18467
    ensures DaysFromCivil(2020, 7, 25) == 18468 && DaysFromCivil(2020, 7, 26) == 18469
    ensures DaysFromCivil(2020, 7, 27) == 18470 && DaysFromCivil(2020, 7, 28) == 18471
    ensures DaysFromCivil(2020, 7, 29) == 18472
  {
    assert DaysFromCivil(2020, 7, 23) == 18466;
    DaysFromCivilNext(2020, 7, 23);
    DaysFromCivilNext(2020, 7, 24);
    DaysFromCivilNext(2020, 7, 25);
    DaysFromCivilNext(2020, 7, 26);
    DaysFromCivilNext(2020, 7, 27);
    DaysFromCivilNext(2020, 7, 28);
  }

  /** 2020-07-23 was a Thursday; the weekday schedule skips the weekend
      that follows. */
  lemma TestWeekdays()
    ensures Weekday(2020, 7, 23) == 4 && Weekday(2020, 7, 24) == 5
    ensures Weekday(2020, 7, 25) == 6 && Weekday(2020, 7, 26) == 0
    ensures Weekday(2020, 7, 27) == 1 && Weekday(2020, 7, 28) == 2
    ensures Weekday(2020, 7, 29) == 3
  {
    JulyDayNumbers();
  }

  const WEEKDAY_START: Instant := Instant(2020, 7, 23, 15, 28)

  /** The five results the test data expects after `WEEKDAY_START`. */
  function WeekdayRuns(): seq<Instant> {
    [Instant(2020, 7, 23, 22, 0), Instant(2020, 7, 24, 22, 0), Instant(2020, 7, 27, 22, 0),
     Instant(2020, 7, 28, 22, 0), Instant(2020, 7, 29, 22, 0)]
  }

  /** The instant the `i`-th of `runs` follows: `t` for the first, the
      previous run otherwise. */
  function Prev(t: Instant, runs: seq<Instant>, i: nat): Instant
    requires i <= |runs|
  {
    if i == 0 then t else runs[i - 1]
  }

  /** In an ascending list, a member `e` that comes after the element
      before position `j` and not after the element at `j` sits at `j`. */
  lemma FirstAfter(runs: seq<Instant>, j: nat, p: Instant, e: Instant)
    requires j < |runs| && forall a, b :: 0 <= a < b < |runs| ==> Before(runs[a], runs[b])
    requires e in runs && Before(p, e) && (j > 0 ==> p == runs[j - 1])
    requires runs[j] == e || Before(e, runs[j])
    ensures runs[j] == e
  {
    var m :| 0 <= m < |runs| && runs[m] == e;
    assert m == j by {
      BeforeOrder(runs[m], runs[j], runs[m]);
      if j > 0 {
        BeforeOrder(p, runs[m], p);
      }
    }
  }

  /** An ascending list of members of `matches` after `t` that misses none
      of `expected` up to its last element begins with the successive next
      members `expected`: if each `expected[i]` is the first member after
      its predecessor, the lists agree on their common length. */
  lemma {:induction false} RunsFollow(matches: iset<Instant>, t: Instant, runs: seq<Instant>, expected: seq<Instant>,
                                      k: nat)
    requires forall i :: 0 <= i < |runs| ==> runs[i] in matches && Before(t, runs[i])
    requires forall i, j :: 0 <= i < j < |runs| ==> Before(runs[i], runs[j])
    requires forall i :: 0 <= i < |expected| && |runs| > 0 && !Before(runs[|runs| - 1], expected[i]) ==> expected[i] in runs
    requires forall i {:trigger Prev(t, expected, i)} :: 0 <= i < |expected| ==> Before(Prev(t, expected, i), expected[i])
    requires forall i, u {:trigger Before(Prev(t, expected, i), u)} ::
               0 <= i < |expected| && u in matches && Before(Prev(t, expected, i), u)
               ==> u == expected[i] || Before(expected[i], u)
    requires k <= |runs| && k <= |expected|
    ensures runs[..k] == expected[..k]
  {
    if k > 0 {
      RunsFollow(matches, t, runs, expected, k - 1);
      var j := k - 1;
      var p := Prev(t, expected, j);
      if j > 0 {
        assert runs[..j][j - 1] == expected[..j][j - 1];
      }
      assert j > 0 ==> p == runs[j - 1];
      assert Before(p, runs[j]);
      var last := runs[|runs| - 1];
      assert Before(p, last);
      assert last == expected[j] || Before(expected[j], last);
      assert expected[j] in runs;
      assert runs[j] == expected[j] || Before(expected[j], runs[j]);
      FirstAfter(runs, j, p, expected[j]);
      assert runs[..k] == runs[..j] + [runs[j]];
      assert expected[..k] == expected[..j] + [expected[j]];
    }
  }

  /** Once the lists agree on all of `runs`, the next expected element is
      not among them. */
  lemma NextMissing(runs: seq<Instant>, expected: seq<Instant>, k: nat)
    requires k <= |runs| && k <= |expected| && runs[..k] == expected[..k]
    requires forall i, j :: 0 <= i < j < |expected| ==> Before(expected[i], expected[j])
    ensures k == |runs| && k < |expected| ==> expected[k] !in runs
  {
    if k == |runs| && k < |expected| {
      forall m | 0 <= m < |runs| ensures runs[m] != expected[k] {
        assert runs[..k][m] == expected[..k][m];
        assert Before(expected[m], expected[k]);
      }
    }
  }

  /** What the contract of `NextExecutions(t, |expected|, maxYears)`
      leaves open once `expected` are known to be the successive next
      members of `matches` after `t`, all of them before the horizon year:
      nothing. The search is complete and returns exactly `expected`. */
  lemma ContractDeterminesRuns(matches: iset<Instant>, t: Instant, runs: seq<Instant>, ending: Engine.Ending,
                               expected: seq<Instant>, horizon: int)
    requires ending != Engine.NegativeCount
    requires forall i :: 0 <= i < |runs| ==> runs[i] in matches && Before(t, runs[i])
    requires forall i, j :: 0 <= i < j < |runs| ==> Before(runs[i], runs[j])
    requires forall u :: (u in matches && Before(t, u) && |runs| > 0 && !Before(runs[|runs| - 1], u)) ==> u in runs
    requires ending == Engine.Complete ==> |runs| == |expected|
    requires ending == Engine.HorizonReached ==>
      |runs| < |expected| && forall u :: u in matches && Before(t, u) && u.year < horizon ==> u in runs
    requires forall i :: 0 <= i < |expected| ==>
               expected[i] in matches && Before(t, expected[i]) && expected[i].year < horizon
    requires forall i, j :: 0 <= i < j < |expected| ==> Before(expected[i], expected[j])
    requires forall i, u {:trigger Before(Prev(t, expected, i), u)} ::
               0 <= i < |expected| && u in matches && Before(Prev(t, expected, i), u)
               ==> u == expected[i] || Before(expected[i], u)
    ensures ending == Engine.Complete && runs == expected
  {
    var k := if |runs| < |expected| then |runs| else |expected|;
    assert forall i {:trigger Prev(t, expected, i)} :: 0 <= i < |expected| ==> Before(Prev(t, expected, i), expected[i]);
    RunsFollow(matches, t, runs, expected, k);
    NextMissing(runs, expected, k);
    assert ending == Engine.Complete;
    assert runs == runs[..k];
  }

  /** The instants "0 22 * * 1-5" selects. */
  ghost function WeekdayMatches(): iset<Instant> {
    iset u | Matches(WeekdayTables(), u)
  }

  /** Each expected run is the first match of the weekday schedule after
      the one before it. */
  lemma WeekdayStep(i: nat, u: Instant)
    requires i < 5 && u in WeekdayMatches() && Before(Prev(WEEKDAY_START, WeekdayRuns(), i), u)
    ensures u == WeekdayRuns()[i] || Before(WeekdayRuns()[i], u)
  {
    TestWeekdays();
  }

  /** The expected runs match the weekday schedule. */
  lemma WeekdayRunsMatch()
    ensures Instant(2020, 7, 23, 22, 0) in WeekdayMatches()
    ensures Instant(2020, 7, 24, 22, 0) in WeekdayMatches()
    ensures Instant(2020, 7, 27, 22, 0) in WeekdayMatches()
    ensures Instant(2020, 7, 28, 22, 0) in WeekdayMatches()
    ensures Instant(2020, 7, 29, 22, 0) in WeekdayMatches()
  {
    TestWeekdays();
  }

  /** The expected runs ascend. */
  lemma WeekdayRunsAscend()
    ensures forall i, j :: 0 <= i < j < |WeekdayRuns()| ==> Before(WeekdayRuns()[i], WeekdayRuns()[j])
  {
    var e := WeekdayRuns();
    forall i, j | 0 <= i < j < |e| ensures Before(e[i], e[j]) {
      assert e[i].day < e[j].day;
    }
  }

  /** The expected runs are the successive next matches of the weekday
      schedule after the start, all in 2020. */
  lemma WeekdayExpected()
    ensures forall i :: 0 <= i < |WeekdayRuns()| ==>
              WeekdayRuns()[i] in WeekdayMatches() && Before(WEEKDAY_START, WeekdayRuns()[i])
              && WeekdayRuns()[i].year < 2021
    ensures forall i, u {:trigger Before(Prev(WEEKDAY_START, WeekdayRuns(), i), u)} ::
              0 <= i < |WeekdayRuns()| && u in WeekdayMatches() && Before(Prev(WEEKDAY_START, WeekdayRuns(), i), u)
              ==> u == WeekdayRuns()[i] || Before(WeekdayRuns()[i], u)
  {
    WeekdayRunsMatch();
    forall i, u | 0 <= i < |WeekdayRuns()| && u in WeekdayMatches() && Before(Prev(WEEKDAY_START, WeekdayRuns(), i), u)
      ensures u == WeekdayRuns()[i] || Before(WeekdayRuns()[i], u)
    {
      WeekdayStep(i, u);
    }
  }

  /** Anything that keeps the contract of `NextExecutions(WEEKDAY_START, 5,
      maxYears)` for the weekday schedule, with a horizon of at least one
      year, is complete and is exactly the five expected runs. */
  lemma WeekdayRunsAre(runs: seq<Instant>, ending: Engine.Ending, maxYears: nat)
    requires maxYears >= 1 && ending != Engine.NegativeCount
    requires forall i :: 0 <= i < |runs| ==> runs[i] in WeekdayMatches() && Before(WEEKDAY_START, runs[i])
    requires forall i, j :: 0 <= i < j < |runs| ==> Before(runs[i], runs[j])
    requires forall u :: (u in WeekdayMatches() && Before(WEEKDAY_START, u) && |runs| > 0
                          && !Before(runs[|runs| - 1], u)) ==> u in runs
    requires ending == Engine.Complete ==> |runs| == 5
    requires ending == Engine.HorizonReached ==>
      |runs| < 5
      && forall u :: u in WeekdayMatches() && Before(WEEKDAY_START, u) && u.year < WEEKDAY_START.year + maxYears
                     ==> u in runs
    ensures ending == Engine.Complete && runs == WeekdayRuns()
  {
    WeekdayExpected();
    WeekdayRunsAscend();
    ContractDeterminesRuns(WeekdayMatches(), WEEKDAY_START, runs, ending, WeekdayRuns(), WEEKDAY_START.year + maxYears);
  }

  /** Anything that keeps the contract of `NextExecution(WEEKDAY_START,
      maxYears)` for the weekday schedule is the first expected run. */
  lemma WeekdayFirstIs(next: Option<Instant>, maxYears: nat)
    requires maxYears >= 1
    requires next.Some? ==> next.value in WeekdayMatches() && Before(WEEKDAY_START, next.value)
    requires next.Some? ==> forall u :: u in WeekdayMatches() && Before(WEEKDAY_START, u) ==> !Before(u, next.value)
    requires next.None? ==>
      forall u :: u in WeekdayMatches() && Before(WEEKDAY_START, u) ==> u.year >= WEEKDAY_START.year + maxYears
    ensures next == Some(WeekdayRuns()[0])
  {
    WeekdayRunsMatch();
    if next.Some? {
      WeekdayStep(0, next.value);
    }
  }

  /** `Parse` accepts "0 22 * * 1-5" and leaves a schedule whose search
      tables are `WeekdayTables`. */
  method ParseWeekday() returns (s: Schedule, result: Outcome<(), ParseError>)
    ensures result == Ok(()) && s.Valid() && s.SearchTables() == WeekdayTables()
  {
    s, result := Parse(WEEKDAY_TEXT);
    WeekdayParseText();
    assert result.Ok? && result.value == ();
    WeekdayParsed(s);
  }

  /** The first entry of the test data end to end: `Parse` accepts
      "0 22 * * 1-5", `NextExecutions` after 2020-07-23 15:28 with a count
      of five returns the five expected runs, and `NextExecution` returns
      the first of them. */
  method WeekdaySchedule() returns (result: Outcome<(), ParseError>, runs: seq<Instant>, next: Option<Instant>)
    ensures result == Ok(())
    ensures runs == WeekdayRuns()
    ensures next == Some(Instant(2020, 7, 23, 22, 0))
  {
    var s;
    s, result := ParseWeekday();
    forall u | ValidInstant(u) ensures s.ShouldExecute(u) <==> u in WeekdayMatches() {
      s.ShouldExecuteAgrees(u);
    }
    var ending;
    runs, ending := s.NextExecutions(WEEKDAY_START, 5, 1);
    WeekdayRunsAre(runs, ending, 1);
    next := s.NextExecution(WEEKDAY_START, 1);
    WeekdayFirstIs(next, 1);
  }
}
