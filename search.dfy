/** The search space of `computeStartValues` and `NextExecutions`
    (cronschedule.go:107-250): positions that index into the sorted value
    slices of a schedule, their order, and what it means for the positions
    behind a search to have all been visited. */
module Search {
  import opened Calendar
  import opened Generator

  /** What the search reads of a schedule: the sorted minute, hour and month
      slices, and the key sets of the two day maps. */
  datatype Tables = Tables(
    minutes: seq<int>,
    hours: seq<int>,
    months: seq<int>,
    daysOfMonth: set<int>,
    daysOfWeek: set<int>)

  ghost predicate InRange(xs: seq<int>, lo: int, hi: int) {
    forall i :: 0 <= i < |xs| ==> lo <= xs[i] <= hi
  }

  /** The slices are sorted without repetition and hold values of their
      fields, which is what `buildSlices` provides. */
  ghost predicate Sorted(T: Tables) {
    && StrictlyIncreasing(T.minutes) && InRange(T.minutes, 0, 59)
    && StrictlyIncreasing(T.hours) && InRange(T.hours, 0, 23)
    && StrictlyIncreasing(T.months) && InRange(T.months, 1, 12)
  }

  /** A search position: a year, a day of the month, and indexes into the
      month, hour and minute slices (`year, monthIdx, day, hourIdx,
      minuteIdx` of the source). An index may stand one past its slice, and
      the day one past its month, where the search has finished that level. */
  datatype Cursor = Cursor(year: int, monthIdx: int, day: int, hourIdx: int, minuteIdx: int)

  /** A position that denotes an existing instant. */
  predicate ValidKey(T: Tables, k: Cursor) {
    && 0 <= k.monthIdx < |T.months| && 0 <= k.hourIdx < |T.hours| && 0 <= k.minuteIdx < |T.minutes|
    && 1 <= T.months[k.monthIdx] <= 12 && 1 <= k.day <= DaysPerMonth(T.months[k.monthIdx], k.year)
  }

  /** The instant a valid position denotes. */
  function InstantAt(T: Tables, k: Cursor): Instant
    requires ValidKey(T, k)
  {
    Instant(k.year, T.months[k.monthIdx], k.day, T.hours[k.hourIdx], T.minutes[k.minuteIdx])
  }

  /** The day test of cronschedule.go:92-97: day of the month and day of the
      week are alternatives. */
  predicate DayOK(T: Tables, year: int, month: int, day: int)
    requires 1 <= month <= 12
  {
    day in T.daysOfMonth || Weekday(year, month, day) in T.daysOfWeek
  }

  /** A position the search emits when it reaches it. */
  predicate Matching(T: Tables, k: Cursor) {
    ValidKey(T, k) && DayOK(T, k.year, T.months[k.monthIdx], k.day)
  }

  /** An instant the schedule fires at, in terms of the slices. */
  predicate Matches(T: Tables, u: Instant) {
    ValidInstant(u) && u.minute in T.minutes && u.hour in T.hours && u.month in T.months
    && DayOK(T, u.year, u.month, u.day)
  }

  /** The order in which the nested loops visit positions. */
  predicate KeyLt(a: Cursor, b: Cursor) {
    a.year < b.year
    || (a.year == b.year && (a.monthIdx < b.monthIdx
    || (a.monthIdx == b.monthIdx && (a.day < b.day
    || (a.day == b.day && (a.hourIdx < b.hourIdx
    || (a.hourIdx == b.hourIdx && a.minuteIdx < b.minuteIdx)))))))
  }

  predicate KeyLe(a: Cursor, b: Cursor) {
    a == b || KeyLt(a, b)
  }

  lemma KeyOrder(a: Cursor, b: Cursor, c: Cursor)
    ensures !KeyLt(a, a)
    ensures KeyLt(a, b) ==> !KeyLt(b, a)
    ensures KeyLt(a, b) && KeyLt(b, c) ==> KeyLt(a, c)
    ensures KeyLe(a, b) || KeyLt(b, a)
  {
  }

  /** In a strictly increasing slice, index order is value order. */
  lemma IndexOrder(xs: seq<int>, i: int, j: int)
    requires StrictlyIncreasing(xs) && 0 <= i < |xs| && 0 <= j < |xs|
    ensures i < j <==> xs[i] < xs[j]
    ensures i == j <==> xs[i] == xs[j]
  {
  }

  /** Over sorted slices the visiting order is chronological order, so an
      enumeration in position order is one in time order. */
  lemma KeyOrderIsTimeOrder(T: Tables, a: Cursor, b: Cursor)
    requires Sorted(T) && ValidKey(T, a) && ValidKey(T, b)
    ensures KeyLt(a, b) <==> Before(InstantAt(T, a), InstantAt(T, b))
    ensures a == b <==> InstantAt(T, a) == InstantAt(T, b)
  {
    IndexOrder(T.months, a.monthIdx, b.monthIdx);
    IndexOrder(T.hours, a.hourIdx, b.hourIdx);
    IndexOrder(T.minutes, a.minuteIdx, b.minuteIdx);
  }

  /** The position of a value in a slice that holds it. */
  function Position(xs: seq<int>, v: int): (i: nat)
    requires v in xs
    ensures i < |xs| && xs[i] == v
  {
    if xs[0] == v then 0 else 1 + Position(xs[1..], v)
  }

  /** The position of an instant the schedule fires at. */
  function KeyOf(T: Tables, u: Instant): (k: Cursor)
    requires Matches(T, u)
    ensures Matching(T, k) && InstantAt(T, k) == u
  {
    Cursor(u.year, Position(T.months, u.month), u.day, Position(T.hours, u.hour), Position(T.minutes, u.minute))
  }

  /** Positions the search emits are instants the schedule fires at, and the
      other way round. */
  lemma MatchingMeansMatches(T: Tables, k: Cursor)
    requires ValidKey(T, k) && Sorted(T)
    ensures Matching(T, k) <==> Matches(T, InstantAt(T, k))
  {
  }

  /** Every matching position before `pos` denotes an instant before `s`:
      nothing the search could emit has been skipped on the way to `pos`. */
  ghost predicate BelowIsPast(T: Tables, pos: Cursor, s: Instant) {
    forall k :: Matching(T, k) && KeyLt(k, pos) ==> Before(InstantAt(T, k), s)
  }

  /** `keys` are exactly the matching positions from `c0` up to `cur`, in
      visiting order: the invariant of the search loops. */
  ghost predicate Enumerated(T: Tables, c0: Cursor, cur: Cursor, keys: seq<Cursor>) {
    && KeyLe(c0, cur)
    && (forall i :: 0 <= i < |keys| ==> Matching(T, keys[i]) && KeyLe(c0, keys[i]) && KeyLt(keys[i], cur))
    && (forall i, j :: 0 <= i < j < |keys| ==> KeyLt(keys[i], keys[j]))
    && (forall k :: Matching(T, k) && KeyLe(c0, k) && KeyLt(k, cur) ==> k in keys)
  }

  /** The search starts with nothing visited. */
  lemma EnumeratedStart(T: Tables, c0: Cursor)
    ensures Enumerated(T, c0, c0, [])
  {
    forall k | KeyLe(c0, k) && KeyLt(k, c0) ensures false {
      KeyOrder(c0, k, c0);
    }
  }

  /** Emitting the position reached, then moving to the next minute. */
  lemma EnumeratedEmit(T: Tables, c0: Cursor, cur: Cursor, keys: seq<Cursor>)
    requires Enumerated(T, c0, cur, keys) && Matching(T, cur)
    ensures Enumerated(T, c0, cur.(minuteIdx := cur.minuteIdx + 1), keys + [cur])
  {
    var next := cur.(minuteIdx := cur.minuteIdx + 1);
    var keys' := keys + [cur];
    forall i | 0 <= i < |keys'| ensures KeyLt(keys'[i], next) {
      if i < |keys| { KeyOrder(keys[i], cur, next); }
    }
    forall k | Matching(T, k) && KeyLe(c0, k) && KeyLt(k, next) ensures k in keys' {
      if k != cur { assert KeyLt(k, cur); assert k in keys; }
    }
    assert KeyLe(c0, next) by { KeyOrder(c0, cur, next); }
  }

  /** Moving on from `cur` to `next` over positions none of which match. */
  lemma EnumeratedSkip(T: Tables, c0: Cursor, cur: Cursor, next: Cursor, keys: seq<Cursor>)
    requires Enumerated(T, c0, cur, keys) && KeyLt(cur, next)
    requires forall k :: Matching(T, k) && KeyLe(cur, k) && KeyLt(k, next) ==> false
    ensures Enumerated(T, c0, next, keys)
  {
    forall i | 0 <= i < |keys| ensures KeyLt(keys[i], next) {
      KeyOrder(keys[i], cur, next);
    }
    forall k | Matching(T, k) && KeyLe(c0, k) && KeyLt(k, next) ensures k in keys {
      KeyOrder(k, cur, next);
    }
    KeyOrder(c0, cur, next);
  }

  /** The minutes of an hour are done. */
  lemma NextHour(T: Tables, c0: Cursor, cur: Cursor, keys: seq<Cursor>)
    requires Enumerated(T, c0, cur, keys) && cur.minuteIdx >= |T.minutes|
    ensures Enumerated(T, c0, Cursor(cur.year, cur.monthIdx, cur.day, cur.hourIdx + 1, 0), keys)
  {
    EnumeratedSkip(T, c0, cur, Cursor(cur.year, cur.monthIdx, cur.day, cur.hourIdx + 1, 0), keys);
  }

  /** The hours of a day are done, or the day does not match at all. */
  lemma NextDay(T: Tables, c0: Cursor, cur: Cursor, keys: seq<Cursor>)
    requires Enumerated(T, c0, cur, keys)
    requires cur.hourIdx >= |T.hours|
             || (0 <= cur.monthIdx < |T.months| && 1 <= T.months[cur.monthIdx] <= 12
                 && !DayOK(T, cur.year, T.months[cur.monthIdx], cur.day))
    ensures Enumerated(T, c0, Cursor(cur.year, cur.monthIdx, cur.day + 1, 0, 0), keys)
  {
    EnumeratedSkip(T, c0, cur, Cursor(cur.year, cur.monthIdx, cur.day + 1, 0, 0), keys);
  }

  /** The days of a month are done. */
  lemma NextMonth(T: Tables, c0: Cursor, cur: Cursor, keys: seq<Cursor>)
    requires Enumerated(T, c0, cur, keys)
    requires 0 <= cur.monthIdx < |T.months| && 1 <= T.months[cur.monthIdx] <= 12
    requires cur.day > DaysPerMonth(T.months[cur.monthIdx], cur.year)
    ensures Enumerated(T, c0, Cursor(cur.year, cur.monthIdx + 1, 1, 0, 0), keys)
  {
    EnumeratedSkip(T, c0, cur, Cursor(cur.year, cur.monthIdx + 1, 1, 0, 0), keys);
  }

  /** The months of a year are done. */
  lemma NextYear(T: Tables, c0: Cursor, cur: Cursor, keys: seq<Cursor>)
    requires Enumerated(T, c0, cur, keys) && cur.monthIdx >= |T.months|
    ensures Enumerated(T, c0, Cursor(cur.year + 1, 0, 1, 0, 0), keys)
  {
    EnumeratedSkip(T, c0, cur, Cursor(cur.year + 1, 0, 1, 0, 0), keys);
  }

  /** Every slice the search walks through has a value. */
  predicate Covered(T: Tables) {
    |T.minutes| > 0 && |T.hours| > 0 && |T.months| > 0
  }

  /** Moving the bound from `p` to `q` over positions that all denote
      instants before `s`. */
  lemma PastSkip(T: Tables, s: Instant, p: Cursor, q: Cursor)
    requires BelowIsPast(T, p, s) && KeyLt(p, q)
    requires forall k :: Matching(T, k) && KeyLe(p, k) && KeyLt(k, q) ==> Before(InstantAt(T, k), s)
    ensures BelowIsPast(T, q, s)
  {
    forall k | Matching(T, k) && KeyLt(k, q) ensures Before(InstantAt(T, k), s) {
      KeyOrder(k, p, q);
    }
  }

  /** The years before that of `s` lie before `s`. */
  lemma PastEarlierYears(T: Tables, s: Instant)
    ensures BelowIsPast(T, Cursor(s.year, 0, 0, 0, 0), s)
  {
  }

  /** A month of the slice before the month of `s` lies before `s`. */
  lemma PastEarlierMonth(T: Tables, s: Instant, m: int)
    requires 0 <= m < |T.months| && T.months[m] < s.month
    requires BelowIsPast(T, Cursor(s.year, m, 0, 0, 0), s)
    ensures BelowIsPast(T, Cursor(s.year, m + 1, 0, 0, 0), s)
  {
    PastSkip(T, s, Cursor(s.year, m, 0, 0, 0), Cursor(s.year, m + 1, 0, 0, 0));
  }

  /** In the month of `s`, the days before that of `s` lie before `s`. */
  lemma PastEarlierDays(T: Tables, s: Instant, m: int)
    requires 0 <= m < |T.months| && T.months[m] == s.month && s.day >= 1
    requires BelowIsPast(T, Cursor(s.year, m, 0, 0, 0), s)
    ensures BelowIsPast(T, Cursor(s.year, m, s.day, 0, 0), s)
  {
    if s.day > 0 {
      PastSkip(T, s, Cursor(s.year, m, 0, 0, 0), Cursor(s.year, m, s.day, 0, 0));
    }
  }

  /** On the day of `s`, an hour before that of `s` lies before `s`. */
  lemma PastEarlierHour(T: Tables, s: Instant, m: int, h: int)
    requires 0 <= m < |T.months| && T.months[m] == s.month
    requires 0 <= h < |T.hours| && T.hours[h] < s.hour
    requires BelowIsPast(T, Cursor(s.year, m, s.day, h, 0), s)
    ensures BelowIsPast(T, Cursor(s.year, m, s.day, h + 1, 0), s)
  {
    PastSkip(T, s, Cursor(s.year, m, s.day, h, 0), Cursor(s.year, m, s.day, h + 1, 0));
  }

  /** In the hour of `s`, a minute before that of `s` lies before `s`. */
  lemma PastEarlierMinute(T: Tables, s: Instant, m: int, h: int, mi: int)
    requires 0 <= m < |T.months| && T.months[m] == s.month
    requires 0 <= h < |T.hours| && T.hours[h] == s.hour
    requires 0 <= mi < |T.minutes| && T.minutes[mi] < s.minute
    requires BelowIsPast(T, Cursor(s.year, m, s.day, h, mi), s)
    ensures BelowIsPast(T, Cursor(s.year, m, s.day, h, mi + 1), s)
  {
  }

  /** Past the last minute index there is nothing left in an hour. */
  lemma PastMinutesDone(T: Tables, s: Instant, c: Cursor)
    requires c.minuteIdx >= |T.minutes| && BelowIsPast(T, c, s)
    ensures BelowIsPast(T, Cursor(c.year, c.monthIdx, c.day, c.hourIdx + 1, 0), s)
  {
    PastSkip(T, s, c, Cursor(c.year, c.monthIdx, c.day, c.hourIdx + 1, 0));
  }

  /** Past the last hour index, or on a day that does not match, there is
      nothing left in a day. */
  lemma PastDayDone(T: Tables, s: Instant, c: Cursor)
    requires BelowIsPast(T, c, s)
    requires c.hourIdx >= |T.hours|
             || (0 <= c.monthIdx < |T.months| && 1 <= T.months[c.monthIdx] <= 12
                 && !DayOK(T, c.year, T.months[c.monthIdx], c.day) && c.hourIdx == 0 && c.minuteIdx == 0)
    ensures BelowIsPast(T, Cursor(c.year, c.monthIdx, c.day + 1, 0, 0), s)
  {
    PastSkip(T, s, c, Cursor(c.year, c.monthIdx, c.day + 1, 0, 0));
  }

  /** Past the last day of the month there is nothing left in it. */
  lemma PastMonthDone(T: Tables, s: Instant, c: Cursor)
    requires BelowIsPast(T, c, s) && c.hourIdx == 0 && c.minuteIdx == 0
    requires 0 <= c.monthIdx < |T.months| && 1 <= T.months[c.monthIdx] <= 12
    requires c.day > DaysPerMonth(T.months[c.monthIdx], c.year)
    ensures BelowIsPast(T, Cursor(c.year, c.monthIdx + 1, 0, 0, 0), s)
  {
    PastSkip(T, s, c, Cursor(c.year, c.monthIdx + 1, 0, 0, 0));
  }

  /** Past the last month index there is nothing left in a year. */
  lemma PastYearDone(T: Tables, s: Instant, c: Cursor)
    requires BelowIsPast(T, c, s) && c.monthIdx >= |T.months|
    ensures BelowIsPast(T, Cursor(c.year + 1, 0, 1, 0, 0), s)
  {
    PastSkip(T, s, c, Cursor(c.year + 1, 0, 1, 0, 0));
  }

  /** There is no day 0. */
  lemma PastDayZero(T: Tables, s: Instant, c: Cursor)
    requires BelowIsPast(T, c, s) && c.day == 0 && c.hourIdx == 0 && c.minuteIdx == 0
    ensures BelowIsPast(T, c.(day := 1), s)
  {
    PastSkip(T, s, c, c.(day := 1));
  }

  /** A bound with nothing skipped below it is at or before every position
      that yields an instant from `s` on. */
  lemma PastBound(T: Tables, s: Instant, c: Cursor)
    requires BelowIsPast(T, c, s)
    ensures forall k :: Matching(T, k) && !Before(InstantAt(T, k), s) ==> KeyLe(c, k)
  {
    forall k | Matching(T, k) && !Before(InstantAt(T, k), s) ensures KeyLe(c, k) {
      KeyOrder(c, k, c);
    }
  }

  /** The positions `keys` and the instants `times` are the same emissions. */
  ghost predicate Denotes(T: Tables, keys: seq<Cursor>, times: seq<Instant>) {
    |keys| == |times| && forall i :: 0 <= i < |keys| ==> ValidKey(T, keys[i]) && times[i] == InstantAt(T, keys[i])
  }

  /** The instants an enumeration from a start no earlier than `s` emits
      all match and none lies before `s`. */
  lemma EmittedMatch(T: Tables, s: Instant, c0: Cursor, cur: Cursor, keys: seq<Cursor>, times: seq<Instant>)
    requires Sorted(T) && Enumerated(T, c0, cur, keys) && Denotes(T, keys, times)
    requires Covered(T) ==> ValidKey(T, c0) && !Before(InstantAt(T, c0), s)
    ensures forall i :: 0 <= i < |times| ==> Matches(T, times[i]) && !Before(times[i], s)
  {
    forall i | 0 <= i < |times| ensures Matches(T, times[i]) && !Before(times[i], s) {
      MatchingMeansMatches(T, keys[i]);
      if keys[i] != c0 {
        KeyOrderIsTimeOrder(T, c0, keys[i]);
        BeforeOrder(s, InstantAt(T, c0), times[i]);
        BeforeOrder(times[i], InstantAt(T, c0), s);
      }
    }
  }

  /** Positions emitted in visiting order are instants in time order. */
  lemma EmittedAscending(T: Tables, c0: Cursor, cur: Cursor, keys: seq<Cursor>, times: seq<Instant>)
    requires Sorted(T) && Enumerated(T, c0, cur, keys) && Denotes(T, keys, times)
    ensures forall i, j :: 0 <= i < j < |times| ==> Before(times[i], times[j])
  {
    forall i, j | 0 <= i < j < |times| ensures Before(times[i], times[j]) {
      KeyOrderIsTimeOrder(T, keys[i], keys[j]);
    }
  }

  /** Every instant from `s` on whose position the enumeration has passed
      was emitted. */
  lemma EmittedBelow(T: Tables, s: Instant, c0: Cursor, cur: Cursor, keys: seq<Cursor>, times: seq<Instant>)
    requires Enumerated(T, c0, cur, keys) && Denotes(T, keys, times) && BelowIsPast(T, c0, s)
    ensures forall u :: Matches(T, u) && !Before(u, s) && KeyLt(KeyOf(T, u), cur) ==> u in times
  {
    PastBound(T, s, c0);
    forall u | Matches(T, u) && !Before(u, s) && KeyLt(KeyOf(T, u), cur) ensures u in times {
      var k := KeyOf(T, u);
      var i :| 0 <= i < |keys| && keys[i] == k;
      assert times[i] == u;
    }
  }

  /** Every instant from `s` on up to the last one emitted was emitted. */
  lemma EmittedUpToLast(T: Tables, s: Instant, c0: Cursor, cur: Cursor, keys: seq<Cursor>, times: seq<Instant>)
    requires Sorted(T) && Enumerated(T, c0, cur, keys) && Denotes(T, keys, times) && BelowIsPast(T, c0, s)
    ensures forall u :: Matches(T, u) && !Before(u, s) && |times| > 0 && !Before(times[|times| - 1], u) ==> u in times
  {
    PastBound(T, s, c0);
    forall u | Matches(T, u) && !Before(u, s) && |times| > 0 && !Before(times[|times| - 1], u)
      ensures u in times
    {
      var k := KeyOf(T, u);
      var last := keys[|keys| - 1];
      KeyOrderIsTimeOrder(T, k, last);
      KeyOrder(k, last, cur);
      var i :| 0 <= i < |keys| && keys[i] == k;
      assert times[i] == u;
    }
  }
}
