/** The search of `computeStartValues`, `NextExecutions` and
    `NextExecution` (cronschedule.go:107-257) over the sorted slices and day
    maps of a schedule, and what it finds. */
module Engine {
  import opened Wrappers
  import opened Calendar
  import opened Generator
  import opened Search

  /** How `NextExecutions` stopped: with the result the source returns, at
      the search horizon (where the source would go on searching), or on a
      negative count (where `make` panics in the source). */
  datatype Ending = Complete | HorizonReached | NegativeCount

  /** The inputs on which the minute loop of cronschedule.go:150-154 never
      exits: the search starts in a listed month, on a matching day, in a
      listed hour, and the first listed minute lies before the start minute,
      so the loop re-tests the same index forever. */
  predicate StartStalls(T: Tables, s: Instant)
    requires ValidInstant(s)
  {
    && s.month in T.months && DayOK(T, s.year, s.month, s.day) && s.hour in T.hours
    && |T.minutes| > 0 && T.minutes[0] < s.minute
  }

  /** The schedule "0 15 * * *" (both day maps full) asked at 15:29 for its
      next run starts the search at 15:30 and stalls. */
  lemma StallExample()
    ensures StartStalls(Tables([0], [15], [1, 2, 3, 4, 5, 6, 7, 8, 9, 10, 11, 12],
                               {1, 2, 3, 4, 5, 6, 7, 8, 9, 10, 11, 12, 13, 14, 15, 16,
                                17, 18, 19, 20, 21, 22, 23, 24, 25, 26, 27, 28, 29, 30, 31},
                               {0, 1, 2, 3, 4, 5, 6}),
                        Instant(2020, 7, 23, 15, 30))
  {
  }

  /** What holds at every point of the search loops: the positions emitted
      so far are exactly the matching ones from the start up to `cur`, the
      instants returned are the ones they denote, and, when every match of
      a year is asked for, all of them lie in `year`. */
  ghost predicate Found(T: Tables, c0: Cursor, cur: Cursor, keys: seq<Cursor>, times: seq<Instant>, count: int, year: int) {
    && Enumerated(T, c0, cur, keys) && Denotes(T, keys, times)
    && (count == 0 ==> forall i :: 0 <= i < |keys| ==> keys[i].year == year)
  }

  /** Emitting the matching position reached keeps `Found`. */
  lemma FoundEmit(T: Tables, c0: Cursor, year: int, monthIdx: int, day: int, hourIdx: int, minuteIdx: int,
                  keys: seq<Cursor>, times: seq<Instant>, count: int)
    requires Found(T, c0, Cursor(year, monthIdx, day, hourIdx, minuteIdx), keys, times, count, year)
    requires Matching(T, Cursor(year, monthIdx, day, hourIdx, minuteIdx))
    ensures Found(T, c0, Cursor(year, monthIdx, day, hourIdx, minuteIdx + 1),
                  keys + [Cursor(year, monthIdx, day, hourIdx, minuteIdx)],
                  times + [Instant(year, T.months[monthIdx], day, T.hours[hourIdx], T.minutes[minuteIdx])], count, year)
  {
    EnumeratedEmit(T, c0, Cursor(year, monthIdx, day, hourIdx, minuteIdx), keys);
  }

  /** Moving on to the next hour once the minutes are done keeps `Found`. */
  lemma FoundNextHour(T: Tables, c0: Cursor, year: int, monthIdx: int, day: int, hourIdx: int, minuteIdx: int,
                      keys: seq<Cursor>, times: seq<Instant>, count: int)
    requires Found(T, c0, Cursor(year, monthIdx, day, hourIdx, minuteIdx), keys, times, count, year)
    requires minuteIdx >= |T.minutes|
    ensures Found(T, c0, Cursor(year, monthIdx, day, hourIdx + 1, 0), keys, times, count, year)
  {
    NextHour(T, c0, Cursor(year, monthIdx, day, hourIdx, minuteIdx), keys);
  }

  /** Moving on to the next day once the hours are done, or from a day that
      does not match, keeps `Found`. */
  lemma FoundNextDay(T: Tables, c0: Cursor, year: int, monthIdx: int, day: int, hourIdx: int, minuteIdx: int,
                     keys: seq<Cursor>, times: seq<Instant>, count: int)
    requires Found(T, c0, Cursor(year, monthIdx, day, hourIdx, minuteIdx), keys, times, count, year)
    requires hourIdx >= |T.hours|
             || (0 <= monthIdx < |T.months| && 1 <= T.months[monthIdx] <= 12
                 && !DayOK(T, year, T.months[monthIdx], day))
    ensures Found(T, c0, Cursor(year, monthIdx, day + 1, 0, 0), keys, times, count, year)
  {
    NextDay(T, c0, Cursor(year, monthIdx, day, hourIdx, minuteIdx), keys);
  }

  /** Moving on to the next month once the days are done keeps `Found`. */
  lemma FoundNextMonth(T: Tables, c0: Cursor, year: int, monthIdx: int, day: int, hourIdx: int, minuteIdx: int,
                       keys: seq<Cursor>, times: seq<Instant>, count: int)
    requires Found(T, c0, Cursor(year, monthIdx, day, hourIdx, minuteIdx), keys, times, count, year)
    requires 0 <= monthIdx < |T.months| && 1 <= T.months[monthIdx] <= 12
    requires day > DaysPerMonth(T.months[monthIdx], year)
    ensures Found(T, c0, Cursor(year, monthIdx + 1, 1, 0, 0), keys, times, count, year)
  {
    NextMonth(T, c0, Cursor(year, monthIdx, day, hourIdx, minuteIdx), keys);
  }

  /** What a search from the minute after `t` has found once it reaches
      `frontier`, in terms of instants. */
  lemma SearchResult(T: Tables, t: Instant, c0: Cursor, frontier: Cursor, keys: seq<Cursor>, times: seq<Instant>)
    requires Sorted(T) && ValidInstant(t)
    requires BelowIsPast(T, c0, AddMinute(t)) && c0.year >= AddMinute(t).year
    requires Covered(T) ==> ValidKey(T, c0) && !Before(InstantAt(T, c0), AddMinute(t))
    requires Enumerated(T, c0, frontier, keys) && Denotes(T, keys, times)
    ensures forall i :: 0 <= i < |times| ==> Matches(T, times[i]) && Before(t, times[i]) && times[i].year == keys[i].year
    ensures forall i, j :: 0 <= i < j < |times| ==> Before(times[i], times[j])
    ensures forall u :: (Matches(T, u) && Before(t, u) && |times| > 0 && !Before(times[|times| - 1], u)) ==> u in times
    ensures forall u :: Matches(T, u) && Before(t, u) && u.year < frontier.year ==> u in times
    ensures frontier.year >= t.year
  {
    var s := AddMinute(t);
    EmittedMatch(T, s, c0, frontier, keys, times);
    EmittedAscending(T, c0, frontier, keys, times);
    EmittedBelow(T, s, c0, frontier, keys, times);
    EmittedUpToLast(T, s, c0, frontier, keys, times);
    forall u | ValidInstant(u) ensures Before(t, u) <==> !Before(u, s) {
      AddMinuteIsNext(t, u);
    }
    KeyOrder(c0, frontier, frontier);
  }

  /** How each way of ending the search turns what it has found into the
      promises of `NextExecutions`. */
  lemma ExecutionsOutcome(T: Tables, t: Instant, count: int, maxYears: nat, ending: Ending,
                          c0: Cursor, frontier: Cursor, keys: seq<Cursor>, times: seq<Instant>)
    requires Sorted(T) && ValidInstant(t) && count >= 0 && ending != NegativeCount
    requires BelowIsPast(T, c0, AddMinute(t)) && c0.year >= AddMinute(t).year
    requires Covered(T) ==> ValidKey(T, c0) && !Before(InstantAt(T, c0), AddMinute(t))
    requires Enumerated(T, c0, frontier, keys) && Denotes(T, keys, times)
    requires ending == Complete && count > 0 ==> |keys| == count
    requires ending == Complete && count == 0 ==>
      |keys| > 0 && forall i :: 0 <= i < |keys| ==> keys[i].year == frontier.year - 1
    requires ending == HorizonReached ==>
      frontier.year >= c0.year + maxYears && (count == 0 ==> keys == []) && (count > 0 ==> |keys| < count)
    ensures forall i :: 0 <= i < |times| ==> Matches(T, times[i]) && Before(t, times[i])
    ensures forall i, j :: 0 <= i < j < |times| ==> Before(times[i], times[j])
    ensures forall u :: (Matches(T, u) && Before(t, u) && |times| > 0
                         && !Before(times[|times| - 1], u)) ==> u in times
    ensures ending == Complete && count > 0 ==> |times| == count
    ensures ending == Complete && count == 0 ==>
      && |times| > 0
      && (forall i :: 0 <= i < |times| ==> times[i].year == times[0].year)
      && (forall u :: Matches(T, u) && Before(t, u) && u.year <= times[0].year ==> u in times)
    ensures ending == HorizonReached ==>
      && (count == 0 ==> times == [])
      && (count > 0 ==> |times| < count)
      && (forall u :: Matches(T, u) && Before(t, u) && u.year < t.year + maxYears ==> u in times)
  {
    SearchResult(T, t, c0, frontier, keys, times);
    if ending == Complete && count == 0 {
      assert times[0].year == frontier.year - 1;
    }
    if ending == HorizonReached {
      assert t.year <= AddMinute(t).year;
    }
  }

  /** The hour loop of cronschedule.go:138-160 on the day of `s`, with the
      minute loop advancing its index: the first listed hour and minute
      from those of `s` on, or `None` when the day has none left. The
      source keeps `hourIdx` and `minuteIdx` across months, but only one
      listed month is the month of `s`, so they start at 0 here. */
  method StartHours(T: Tables, s: Instant, monthIdx: int) returns (r: Option<Cursor>)
    requires Sorted(T) && ValidInstant(s)
    requires 0 <= monthIdx < |T.months| && T.months[monthIdx] == s.month
    requires BelowIsPast(T, Cursor(s.year, monthIdx, s.day, 0, 0), s)
    ensures r.Some? ==> && r.value.year == s.year && r.value.monthIdx == monthIdx && r.value.day == s.day
                        && r.value.hourIdx >= 0 && r.value.minuteIdx >= 0 && BelowIsPast(T, r.value, s)
                        && (Covered(T) ==> ValidKey(T, r.value) && !Before(InstantAt(T, r.value), s))
    ensures r.None? ==> BelowIsPast(T, Cursor(s.year, monthIdx, s.day + 1, 0, 0), s)
  {
    var hourIdx, minuteIdx := 0, 0;
    while hourIdx < |T.hours|
      invariant 0 <= hourIdx <= |T.hours| && 0 <= minuteIdx <= |T.minutes|
      invariant BelowIsPast(T, Cursor(s.year, monthIdx, s.day, hourIdx, 0), s)
      invariant minuteIdx == 0 || (hourIdx > 0 && T.hours[hourIdx - 1] == s.hour)
    {
      if T.hours[hourIdx] > s.hour {
        return Some(Cursor(s.year, monthIdx, s.day, hourIdx, 0));
      }
      if T.hours[hourIdx] == s.hour {
        if hourIdx > 0 {
          assert T.hours[hourIdx - 1] < T.hours[hourIdx];
        }
        while minuteIdx < |T.minutes|
          invariant 0 <= minuteIdx <= |T.minutes|
          invariant BelowIsPast(T, Cursor(s.year, monthIdx, s.day, hourIdx, minuteIdx), s)
        {
          if T.minutes[minuteIdx] >= s.minute {
            return Some(Cursor(s.year, monthIdx, s.day, hourIdx, minuteIdx));
          }
          PastEarlierMinute(T, s, monthIdx, hourIdx, minuteIdx);
          minuteIdx := minuteIdx + 1;
        }
        PastMinutesDone(T, s, Cursor(s.year, monthIdx, s.day, hourIdx, minuteIdx));
      } else {
        PastEarlierHour(T, s, monthIdx, hourIdx);
      }
      hourIdx := hourIdx + 1;
    }
    PastDayDone(T, s, Cursor(s.year, monthIdx, s.day, hourIdx, 0));
    return None;
  }

  /** `computeStartValues` (cronschedule.go:110-172) with the minute loop
      advancing its index: the position at which the search for `s`
      starts. Every matching position before it denotes an instant before
      `s`, and on a schedule with minutes, hours and months it denotes an
      instant no earlier than `s`. */
  method ComputeStartValues(T: Tables, s: Instant) returns (c: Cursor)
    requires Sorted(T) && ValidInstant(s)
    ensures c.year == s.year || c == Cursor(s.year + 1, 0, 1, 0, 0)
    ensures c.monthIdx >= 0 && c.day >= 1 && c.hourIdx >= 0 && c.minuteIdx >= 0
    ensures BelowIsPast(T, c, s)
    ensures Covered(T) ==> ValidKey(T, c) && !Before(InstantAt(T, c), s)
  {
    var tYear, tMonth, tDay := s.year, s.month, s.day;
    var monthIdx := 0;
    PastEarlierYears(T, s);
    while monthIdx < |T.months|
      invariant 0 <= monthIdx <= |T.months|
      invariant BelowIsPast(T, Cursor(tYear, monthIdx, 0, 0, 0), s)
    {
      if T.months[monthIdx] > tMonth {
        PastDayZero(T, s, Cursor(tYear, monthIdx, 0, 0, 0));
        return Cursor(tYear, monthIdx, 1, 0, 0);
      }
      if T.months[monthIdx] == tMonth {
        PastEarlierDays(T, s, monthIdx);
        var dayOfMonthOK := tDay in T.daysOfMonth;
        var dayOfWeekOK := Weekday(tYear, tMonth, tDay) in T.daysOfWeek;
        if dayOfWeekOK || dayOfMonthOK {
          var start := StartHours(T, s, monthIdx);
          if start.Some? {
            return start.value;
          }
        } else {
          PastDayDone(T, s, Cursor(tYear, monthIdx, tDay, 0, 0));
        }
        var nextDay := tDay + 1;
        if nextDay <= DaysPerMonth(T.months[monthIdx], tYear) {
          return Cursor(tYear, monthIdx, nextDay, 0, 0);
        }
        PastMonthDone(T, s, Cursor(tYear, monthIdx, nextDay, 0, 0));
      } else {
        PastEarlierMonth(T, s, monthIdx);
      }
      monthIdx := monthIdx + 1;
    }
    PastYearDone(T, s, Cursor(tYear, monthIdx, 0, 0, 0));
    return Cursor(tYear + 1, 0, 1, 0, 0);
  }

  /** The hour loop of cronschedule.go:138-160 as written, on a matching
      day of the month of `s`: `stalled` where the minute loop would
      re-test its first index for ever, otherwise what `StartHours`
      returns. */
  method StartHoursAsWritten(T: Tables, s: Instant, monthIdx: int) returns (r: Option<Cursor>, stalled: bool)
    requires Sorted(T) && ValidInstant(s)
    requires 0 <= monthIdx < |T.months| && T.months[monthIdx] == s.month && DayOK(T, s.year, s.month, s.day)
    requires BelowIsPast(T, Cursor(s.year, monthIdx, s.day, 0, 0), s)
    ensures stalled <==> StartStalls(T, s)
    ensures !stalled && r.Some? ==>
      && r.value.year == s.year && r.value.monthIdx == monthIdx && r.value.day == s.day
      && r.value.hourIdx >= 0 && r.value.minuteIdx >= 0 && BelowIsPast(T, r.value, s)
      && (Covered(T) ==> ValidKey(T, r.value) && !Before(InstantAt(T, r.value), s))
    ensures !stalled && r.None? ==> BelowIsPast(T, Cursor(s.year, monthIdx, s.day + 1, 0, 0), s)
  {
    var hourIdx, minuteIdx := 0, 0;
    while hourIdx < |T.hours|
      invariant 0 <= hourIdx <= |T.hours|
      invariant BelowIsPast(T, Cursor(s.year, monthIdx, s.day, hourIdx, 0), s)
      invariant StartStalls(T, s) ==> forall j :: 0 <= j < hourIdx ==> T.hours[j] != s.hour
    {
      if T.hours[hourIdx] > s.hour {
        return Some(Cursor(s.year, monthIdx, s.day, hourIdx, 0)), false;
      }
      if T.hours[hourIdx] == s.hour {
        if minuteIdx < |T.minutes| {
          if T.minutes[minuteIdx] >= s.minute {
            return Some(Cursor(s.year, monthIdx, s.day, hourIdx, minuteIdx)), false;
          }
          // the loop tests the same index again, forever
          return None, true;
        }
        PastMinutesDone(T, s, Cursor(s.year, monthIdx, s.day, hourIdx, minuteIdx));
      } else {
        PastEarlierHour(T, s, monthIdx, hourIdx);
      }
      hourIdx := hourIdx + 1;
    }
    PastDayDone(T, s, Cursor(s.year, monthIdx, s.day, hourIdx, 0));
    return None, false;
  }

  /** `computeStartValues` as written (cronschedule.go:110-172): the
      minute loop never advances its index, so where the first listed
      minute is too early it never exits; `None` stands for that. On every
      other input it returns what the corrected `ComputeStartValues`
      promises. */
  method ComputeStartValuesAsWritten(T: Tables, s: Instant) returns (r: Option<Cursor>)
    requires Sorted(T) && ValidInstant(s)
    ensures r.None? <==> StartStalls(T, s)
    ensures r.Some? ==> r.value.year == s.year || r.value == Cursor(s.year + 1, 0, 1, 0, 0)
    ensures r.Some? ==> BelowIsPast(T, r.value, s)
    ensures r.Some? && Covered(T) ==>
      ValidKey(T, r.value) && !Before(InstantAt(T, r.value), s)
  {
    var tYear, tMonth, tDay := s.year, s.month, s.day;
    var monthIdx := 0;
    PastEarlierYears(T, s);
    while monthIdx < |T.months|
      invariant 0 <= monthIdx <= |T.months|
      invariant BelowIsPast(T, Cursor(tYear, monthIdx, 0, 0, 0), s)
      invariant StartStalls(T, s) ==> forall j :: 0 <= j < monthIdx ==> T.months[j] != tMonth
    {
      if T.months[monthIdx] > tMonth {
        PastDayZero(T, s, Cursor(tYear, monthIdx, 0, 0, 0));
        return Some(Cursor(tYear, monthIdx, 1, 0, 0));
      }
      if T.months[monthIdx] == tMonth {
        PastEarlierDays(T, s, monthIdx);
        var dayOfMonthOK := tDay in T.daysOfMonth;
        var dayOfWeekOK := Weekday(tYear, tMonth, tDay) in T.daysOfWeek;
        if dayOfWeekOK || dayOfMonthOK {
          var start, stalled := StartHoursAsWritten(T, s, monthIdx);
          if stalled {
            return None;
          }
          if start.Some? {
            return start;
          }
        } else {
          PastDayDone(T, s, Cursor(tYear, monthIdx, tDay, 0, 0));
        }
        var nextDay := tDay + 1;
        if nextDay <= DaysPerMonth(T.months[monthIdx], tYear) {
          return Some(Cursor(tYear, monthIdx, nextDay, 0, 0));
        }
        PastMonthDone(T, s, Cursor(tYear, monthIdx, nextDay, 0, 0));
      } else {
        PastEarlierMonth(T, s, monthIdx);
      }
      monthIdx := monthIdx + 1;
    }
    PastYearDone(T, s, Cursor(tYear, monthIdx, 0, 0, 0));
    return Some(Cursor(tYear + 1, 0, 1, 0, 0));
  }

  /** The minute loop of cronschedule.go:211-226 on a matching day and
      hour: every listed minute emitted, until `count` instants are found. */
  method SearchMinutes(T: Tables, year: int, monthIdx: int, day: int, hourIdx: int, minuteIdx0: int,
                       count: int, times0: seq<Instant>, numFound0: int, ghost c0: Cursor, ghost keys0: seq<Cursor>)
    returns (minuteIdx: int, execTimes: seq<Instant>, numFound: int, ghost keys: seq<Cursor>, full: bool)
    requires 0 <= monthIdx < |T.months| && 1 <= T.months[monthIdx] <= 12
    requires 1 <= day <= DaysPerMonth(T.months[monthIdx], year) && DayOK(T, year, T.months[monthIdx], day)
    requires 0 <= hourIdx < |T.hours| && minuteIdx0 >= 0
    requires Found(T, c0, Cursor(year, monthIdx, day, hourIdx, minuteIdx0), keys0, times0, count, year)
    requires numFound0 == |keys0| && (count >= 1 ==> numFound0 < count)
    ensures numFound == |keys| && minuteIdx >= 0
    ensures full ==> numFound == count && count >= 1
                     && Found(T, c0, Cursor(year, monthIdx, day, hourIdx, minuteIdx + 1), keys, execTimes, count, year)
    ensures !full ==> minuteIdx >= |T.minutes| && (count >= 1 ==> numFound < count)
                      && Found(T, c0, Cursor(year, monthIdx, day, hourIdx, minuteIdx), keys, execTimes, count, year)
  {
    minuteIdx, execTimes, numFound, keys, full := minuteIdx0, times0, numFound0, keys0, false;
    while minuteIdx < |T.minutes|
      invariant minuteIdx >= 0 && numFound == |keys| && (count >= 1 ==> numFound < count)
      invariant Found(T, c0, Cursor(year, monthIdx, day, hourIdx, minuteIdx), keys, execTimes, count, year)
      decreases |T.minutes| - minuteIdx
    {
      var execT := Instant(year, T.months[monthIdx], day, T.hours[hourIdx], T.minutes[minuteIdx]);
      FoundEmit(T, c0, year, monthIdx, day, hourIdx, minuteIdx, keys, execTimes, count);
      keys := keys + [Cursor(year, monthIdx, day, hourIdx, minuteIdx)];
      execTimes := execTimes + [execT];
      numFound := numFound + 1;
      if numFound == count {
        full := true;
        return;
      }
      minuteIdx := minuteIdx + 1;
    }
  }

  /** The hour loop of cronschedule.go:207-230 on a matching day. */
  method SearchHours(T: Tables, year: int, monthIdx: int, day: int, hourIdx0: int, minuteIdx0: int,
                     count: int, times0: seq<Instant>, numFound0: int, ghost c0: Cursor, ghost keys0: seq<Cursor>)
    returns (hourIdx: int, minuteIdx: int, execTimes: seq<Instant>, numFound: int, ghost keys: seq<Cursor>, full: bool)
    requires 0 <= monthIdx < |T.months| && 1 <= T.months[monthIdx] <= 12
    requires 1 <= day <= DaysPerMonth(T.months[monthIdx], year) && DayOK(T, year, T.months[monthIdx], day)
    requires hourIdx0 >= 0 && minuteIdx0 >= 0
    requires Found(T, c0, Cursor(year, monthIdx, day, hourIdx0, minuteIdx0), keys0, times0, count, year)
    requires numFound0 == |keys0| && (count >= 1 ==> numFound0 < count)
    ensures numFound == |keys| && hourIdx >= 0 && minuteIdx >= 0
    ensures full ==> numFound == count && count >= 1
                     && Found(T, c0, Cursor(year, monthIdx, day, hourIdx, minuteIdx + 1), keys, execTimes, count, year)
    ensures !full ==> hourIdx >= |T.hours| && (count >= 1 ==> numFound < count)
                      && Found(T, c0, Cursor(year, monthIdx, day, hourIdx, minuteIdx), keys, execTimes, count, year)
  {
    hourIdx, minuteIdx, execTimes, numFound, keys, full := hourIdx0, minuteIdx0, times0, numFound0, keys0, false;
    while hourIdx < |T.hours|
      invariant hourIdx >= 0 && minuteIdx >= 0 && numFound == |keys| && (count >= 1 ==> numFound < count)
      invariant Found(T, c0, Cursor(year, monthIdx, day, hourIdx, minuteIdx), keys, execTimes, count, year)
      decreases |T.hours| - hourIdx
    {
      minuteIdx, execTimes, numFound, keys, full :=
        SearchMinutes(T, year, monthIdx, day, hourIdx, minuteIdx, count, execTimes, numFound, c0, keys);
      if full {
        return;
      }
      FoundNextHour(T, c0, year, monthIdx, day, hourIdx, minuteIdx, keys, execTimes, count);
      minuteIdx := 0;
      hourIdx := hourIdx + 1;
    }
  }

  /** The day loop of cronschedule.go:201-236 within one month. */
  method SearchDays(T: Tables, year: int, monthIdx: int, day0: int, hourIdx0: int, minuteIdx0: int,
                    count: int, times0: seq<Instant>, numFound0: int, ghost c0: Cursor, ghost keys0: seq<Cursor>)
    returns (day: int, hourIdx: int, minuteIdx: int, execTimes: seq<Instant>, numFound: int,
             ghost keys: seq<Cursor>, full: bool)
    requires 0 <= monthIdx < |T.months| && 1 <= T.months[monthIdx] <= 12
    requires day0 >= 1 && hourIdx0 >= 0 && minuteIdx0 >= 0
    requires Found(T, c0, Cursor(year, monthIdx, day0, hourIdx0, minuteIdx0), keys0, times0, count, year)
    requires numFound0 == |keys0| && (count >= 1 ==> numFound0 < count)
    ensures numFound == |keys| && day >= 1 && hourIdx >= 0 && minuteIdx >= 0
    ensures full ==> numFound == count && count >= 1
                     && Found(T, c0, Cursor(year, monthIdx, day, hourIdx, minuteIdx + 1), keys, execTimes, count, year)
    ensures !full ==> day > DaysPerMonth(T.months[monthIdx], year) && (count >= 1 ==> numFound < count)
                      && Found(T, c0, Cursor(year, monthIdx, day, hourIdx, minuteIdx), keys, execTimes, count, year)
  {
    var month := T.months[monthIdx];
    var daysInMonth := DaysPerMonth(month, year);
    day, hourIdx, minuteIdx, execTimes, numFound, keys, full := day0, hourIdx0, minuteIdx0, times0, numFound0, keys0, false;
    while day <= daysInMonth
      invariant day >= 1 && hourIdx >= 0 && minuteIdx >= 0 && numFound == |keys| && (count >= 1 ==> numFound < count)
      invariant Found(T, c0, Cursor(year, monthIdx, day, hourIdx, minuteIdx), keys, execTimes, count, year)
      decreases daysInMonth - day
    {
      var dayOfMonthOK := day in T.daysOfMonth;
      var dayOfWeekOK := Weekday(year, month, day) in T.daysOfWeek;
      if dayOfMonthOK || dayOfWeekOK {
        hourIdx, minuteIdx, execTimes, numFound, keys, full :=
          SearchHours(T, year, monthIdx, day, hourIdx, minuteIdx, count, execTimes, numFound, c0, keys);
        if full {
          return;
        }
      }
      FoundNextDay(T, c0, year, monthIdx, day, hourIdx, minuteIdx, keys, execTimes, count);
      hourIdx := 0;
      minuteIdx := 0;
      day := day + 1;
    }
  }

  /** The month loop of cronschedule.go:196-245 within one year. */
  method SearchMonths(T: Tables, year: int, monthIdx0: int, day0: int, hourIdx0: int, minuteIdx0: int,
                      count: int, times0: seq<Instant>, numFound0: int, ghost c0: Cursor, ghost keys0: seq<Cursor>)
    returns (monthIdx: int, day: int, hourIdx: int, minuteIdx: int, execTimes: seq<Instant>, numFound: int,
             ghost keys: seq<Cursor>, full: bool)
    requires InRange(T.months, 1, 12)
    requires monthIdx0 >= 0 && day0 >= 1 && hourIdx0 >= 0 && minuteIdx0 >= 0
    requires Found(T, c0, Cursor(year, monthIdx0, day0, hourIdx0, minuteIdx0), keys0, times0, count, year)
    requires numFound0 == |keys0| && (count >= 1 ==> numFound0 < count)
    ensures numFound == |keys|
    ensures full ==> numFound == count && count >= 1
                     && Found(T, c0, Cursor(year, monthIdx, day, hourIdx, minuteIdx + 1), keys, execTimes, count, year)
    ensures !full ==> monthIdx >= |T.months| && (count >= 1 ==> numFound < count)
                      && Found(T, c0, Cursor(year, monthIdx, day, hourIdx, minuteIdx), keys, execTimes, count, year)
  {
    monthIdx, day, hourIdx, minuteIdx := monthIdx0, day0, hourIdx0, minuteIdx0;
    execTimes, numFound, keys, full := times0, numFound0, keys0, false;
    while monthIdx < |T.months|
      invariant monthIdx >= 0 && day >= 1 && hourIdx >= 0 && minuteIdx >= 0
      invariant numFound == |keys| && (count >= 1 ==> numFound < count)
      invariant Found(T, c0, Cursor(year, monthIdx, day, hourIdx, minuteIdx), keys, execTimes, count, year)
      decreases |T.months| - monthIdx
    {
      day, hourIdx, minuteIdx, execTimes, numFound, keys, full :=
        SearchDays(T, year, monthIdx, day, hourIdx, minuteIdx, count, execTimes, numFound, c0, keys);
      if full {
        return;
      }
      FoundNextMonth(T, c0, year, monthIdx, day, hourIdx, minuteIdx, keys, execTimes, count);
      day := 1;
      hourIdx := 0;
      minuteIdx := 0;
      monthIdx := monthIdx + 1;
    }
  }

  /** The year loop of cronschedule.go:192-247: whole years searched from
      `c0` until `count` instants are found, until a year with matches is
      done when `count` is zero, or until `maxYears` years are searched. */
  method SearchYears(T: Tables, c0: Cursor, count: int, maxYears: nat)
    returns (execTimes: seq<Instant>, ending: Ending, ghost keys: seq<Cursor>, ghost frontier: Cursor)
    requires InRange(T.months, 1, 12) && count >= 0
    requires c0.monthIdx >= 0 && c0.day >= 1 && c0.hourIdx >= 0 && c0.minuteIdx >= 0
    ensures ending != NegativeCount
    ensures Enumerated(T, c0, frontier, keys) && Denotes(T, keys, execTimes)
    ensures ending == Complete && count > 0 ==> |keys| == count
    ensures ending == Complete && count == 0 ==>
      |keys| > 0 && forall i :: 0 <= i < |keys| ==> keys[i].year == frontier.year - 1
    ensures ending == HorizonReached ==>
      frontier.year >= c0.year + maxYears && (count == 0 ==> keys == []) && (count > 0 ==> |keys| < count)
  {
    ending := Complete;
    execTimes := [];
    var year, monthIdx, day, hourIdx, minuteIdx := c0.year, c0.monthIdx, c0.day, c0.hourIdx, c0.minuteIdx;
    var numFound := 0;
    var full := false;
    keys := [];
    frontier := c0;
    EnumeratedStart(T, c0);
    while numFound <= count
      invariant year >= c0.year && year - c0.year <= maxYears
      invariant monthIdx >= 0 && day >= 1 && hourIdx >= 0 && minuteIdx >= 0
      invariant Enumerated(T, c0, Cursor(year, monthIdx, day, hourIdx, minuteIdx), keys) && Denotes(T, keys, execTimes)
      invariant numFound == |keys| && (count >= 1 ==> numFound < count)
      invariant count == 0 && numFound > 0 ==> forall i :: 0 <= i < |keys| ==> keys[i].year == year - 1
      invariant ending == Complete
      decreases maxYears - (year - c0.year)
    {
      if year - c0.year >= maxYears {
        ending := HorizonReached;
        break;
      }
      monthIdx, day, hourIdx, minuteIdx, execTimes, numFound, keys, full :=
        SearchMonths(T, year, monthIdx, day, hourIdx, minuteIdx, count, execTimes, numFound, c0, keys);
      if full {
        // `break permutation`
        frontier := Cursor(year, monthIdx, day, hourIdx, minuteIdx + 1);
        break;
      }
      NextYear(T, c0, Cursor(year, monthIdx, day, hourIdx, minuteIdx), keys);
      monthIdx := 0;
      day := 1;
      hourIdx := 0;
      minuteIdx := 0;
      year := year + 1;
    }
    if !full {
      frontier := Cursor(year, monthIdx, day, hourIdx, minuteIdx);
    }
  }

  /** `NextExecutions` (cronschedule.go:175-250): from the minute after
      `t`, the instants the schedule fires at, in ascending order and
      without gaps. A positive count yields that many; a count of zero
      yields every instant up to the end of the first year that has one.
      The search gives up `maxYears` years after its start, where the
      source searches on for ever. */
  method NextExecutions(T: Tables, t: Instant, count: int, maxYears: nat) returns (execTimes: seq<Instant>, ending: Ending)
    requires Sorted(T) && ValidInstant(t)
    ensures (ending == NegativeCount) <==> count < 0
    ensures ending == NegativeCount ==> execTimes == []
    ensures forall i :: 0 <= i < |execTimes| ==> Matches(T, execTimes[i]) && Before(t, execTimes[i])
    ensures forall i, j :: 0 <= i < j < |execTimes| ==> Before(execTimes[i], execTimes[j])
    ensures forall u :: (Matches(T, u) && Before(t, u) && |execTimes| > 0
                         && !Before(execTimes[|execTimes| - 1], u)) ==> u in execTimes
    ensures ending == Complete && count > 0 ==> |execTimes| == count
    ensures ending == Complete && count == 0 ==>
      && |execTimes| > 0
      && (forall i :: 0 <= i < |execTimes| ==> execTimes[i].year == execTimes[0].year)
      && (forall u :: Matches(T, u) && Before(t, u) && u.year <= execTimes[0].year ==> u in execTimes)
    ensures ending == HorizonReached ==>
      && (count == 0 ==> execTimes == [])
      && (count > 0 ==> |execTimes| < count)
      && (forall u :: Matches(T, u) && Before(t, u) && u.year < t.year + maxYears ==> u in execTimes)
  {
    if count < 0 {
      // `make` panics on a negative capacity
      return [], NegativeCount;
    }
    var s := AddMinute(t);
    var c0 := ComputeStartValues(T, s);
    ghost var keys, frontier;
    execTimes, ending, keys, frontier := SearchYears(T, c0, count, maxYears);
    ExecutionsOutcome(T, t, count, maxYears, ending, c0, frontier, keys, execTimes);
  }

  /** `NextExecution` (cronschedule.go:252-257): the first instant after
      `t` the schedule fires at, found as the single result of
      `NextExecutions`. `None` where the search reaches its horizon first;
      there the source searches on. */
  method NextExecution(T: Tables, t: Instant, maxYears: nat) returns (next: Option<Instant>)
    requires Sorted(T) && ValidInstant(t)
    ensures next.Some? ==> Matches(T, next.value) && Before(t, next.value)
    ensures next.Some? ==> forall u :: Matches(T, u) && Before(t, u) ==> !Before(u, next.value)
    ensures next.None? ==> forall u :: Matches(T, u) && Before(t, u) ==> u.year >= t.year + maxYears
  {
    var execTimes, ending := NextExecutions(T, t, 1, maxYears);
    if ending == HorizonReached {
      return None;
    }
    var first := execTimes[0];
    forall u | Matches(T, u) && Before(t, u) ensures !Before(u, first) {
      BeforeOrder(u, first, u);
    }
    return Some(first);
  }
}
