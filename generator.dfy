/** The value-set generator `GenerateValueSlice` (cronschedule.go:682-719):
    the ascending arithmetic progression a range/interval token denotes,
    validated against a field's domain. */
module Generator {
  import opened Wrappers
  import opened Arith
  import Text

  /** The four ways `GenerateValueSlice` rejects its arguments, in the order
      it checks them. */
  datatype GenError = InvalidInterval | InvalidRange | BelowFieldMin | AboveFieldMax

  /** `start, start + step, start + 2 * step, ...` as long as the value does
      not exceed `end`. */
  function Progression(start: int, end: int, step: int): seq<int>
    requires step > 0
    decreases if start > end then 0 else end - start + 1
  {
    if start > end then [] else [start] + Progression(start + step, end, step)
  }

  /** What `GenerateValueSlice` returns: the first failing check's error, or
      the progression. */
  function ValueSlice(rangeStart: int, rangeEnd: int, interval: int, fieldMin: int, fieldMax: int)
    : Outcome<seq<int>, GenError>
  {
    if interval <= 0 then Err(InvalidInterval)
    else if rangeStart > rangeEnd then Err(InvalidRange)
    else if rangeStart < fieldMin then Err(BelowFieldMin)
    else if rangeEnd > fieldMax then Err(AboveFieldMax)
    else Ok(Progression(rangeStart, rangeEnd, interval))
  }

  /** The characterisation the generator's comments and loop promise: it
      starts at `start`, steps by exactly `step`, stays within `[start, end]`
      and stops only when one more step would pass `end`. */
  ghost predicate IsProgression(s: seq<int>, start: int, end: int, step: int) {
    && |s| >= 1
    && s[0] == start
    && (forall i :: 0 <= i < |s| - 1 ==> s[i + 1] == s[i] + step)
    && (forall i :: 0 <= i < |s| ==> start <= s[i] <= end)
    && s[|s| - 1] + step > end
  }

  ghost predicate StrictlyIncreasing(s: seq<int>) {
    forall i, j :: 0 <= i < j < |s| ==> s[i] < s[j]
  }

  /** A non-empty range yields a progression in the sense above. */
  lemma ProgressionIsProgression(start: int, end: int, step: int)
    requires step > 0 && start <= end
    ensures IsProgression(Progression(start, end, step), start, end, step)
    ensures StrictlyIncreasing(Progression(start, end, step))
  {
    ProgressionClimbs(start, end, step);
    ProgressionBounds(start, end, step);
    ClimbingIncreasing(Progression(start, end, step), step);
  }

  /** Neighbouring values of a progression lie one step apart. */
  lemma {:induction false} ProgressionClimbs(start: int, end: int, step: int)
    requires step > 0
    ensures forall i :: 0 <= i < |Progression(start, end, step)| - 1 ==>
      Progression(start, end, step)[i + 1] == Progression(start, end, step)[i] + step
    decreases if start > end then 0 else end - start + 1
  {
    if start <= end {
      ProgressionClimbs(start + step, end, step);
      var p := Progression(start, end, step);
      var q := Progression(start + step, end, step);
      assert p == [start] + q;
      forall i | 0 <= i < |p| - 1 ensures p[i + 1] == p[i] + step {
        if i > 0 {
          assert p[i + 1] == q[i] && p[i] == q[i - 1];
          assert q[(i - 1) + 1] == q[i - 1] + step;
        } else {
          assert q == [start + step] + Progression(start + step + step, end, step);
        }
      }
    }
  }

  /** A progression over a non-empty range starts at `start`, stays inside
      the range, and its last value is within one step of `end`. */
  lemma {:induction false} ProgressionBounds(start: int, end: int, step: int)
    requires step > 0 && start <= end
    ensures var p := Progression(start, end, step);
      && |p| >= 1 && p[0] == start && p[|p| - 1] + step > end
      && forall i :: 0 <= i < |p| ==> start <= p[i] <= end
    decreases end - start
  {
    var p := Progression(start, end, step);
    var q := Progression(start + step, end, step);
    assert p == [start] + q;
    if start + step <= end {
      ProgressionBounds(start + step, end, step);
      assert forall i :: 1 <= i < |p| ==> p[i] == q[i - 1];
    } else {
      assert q == [];
    }
  }

  /** A sequence that climbs by a positive step is strictly increasing. */
  lemma {:induction false} ClimbingIncreasing(s: seq<int>, step: int)
    requires step > 0
    requires forall i :: 0 <= i < |s| - 1 ==> s[i + 1] == s[i] + step
    ensures StrictlyIncreasing(s)
    decreases |s|
  {
    if |s| > 1 {
      var t := s[..|s| - 1];
      assert forall i :: 0 <= i < |t| - 1 ==> t[i + 1] == t[i] + step;
      ClimbingIncreasing(t, step);
      forall i, j | 0 <= i < j < |s| ensures s[i] < s[j] {
        if j < |s| - 1 {
          assert s[i] == t[i] && s[j] == t[j];
        } else if i < j - 1 {
          assert s[i] == t[i] && s[j - 1] == t[j - 1];
        }
      }
    }
  }

  /** Conversely, any sequence with those properties is exactly the
      progression: the characterisation determines the result. */
  lemma {:induction false} ProgressionUnique(s: seq<int>, start: int, end: int, step: int)
    requires step > 0
    requires IsProgression(s, start, end, step)
    ensures s == Progression(start, end, step)
    decreases |s|
  {
    assert start <= s[0] <= end;
    assert Progression(start, end, step) == [start] + Progression(start + step, end, step);
    if |s| > 1 {
      var t := s[1..];
      assert t[0] == start + step;
      assert forall i :: 0 <= i < |t| - 1 ==> t[i + 1] == t[i] + step by {
        forall i | 0 <= i < |t| - 1 ensures t[i + 1] == t[i] + step { assert s[i + 2] == s[i + 1] + step; }
      }
      IncreasingFrom(s, step);
      assert forall i :: 0 <= i < |t| ==> start + step <= t[i] <= end;
      ProgressionUnique(t, start + step, end, step);
      assert s == [start] + t;
    } else {
      assert Progression(start + step, end, step) == [];
      assert s == [start];
    }
  }

  /** Each element of a sequence that climbs by `step` is at least its first
      element plus `step` times its position, in particular at least the
      first element plus `step` from position 1 on. */
  lemma {:induction false} IncreasingFrom(s: seq<int>, step: int)
    requires step > 0 && |s| >= 1
    requires forall i :: 0 <= i < |s| - 1 ==> s[i + 1] == s[i] + step
    ensures forall i :: 1 <= i < |s| ==> s[i] >= s[0] + step
    decreases |s|
  {
    if |s| > 1 {
      IncreasingFrom(s[..|s| - 1], step);
      assert s[|s| - 1] == s[|s| - 2] + step;
    }
  }

  /** The value set a progression denotes: exactly the numbers in
      `[start, end]` that are `start` plus a multiple of `step`. */
  lemma {:induction false} ProgressionMembers(start: int, end: int, step: int, x: int)
    requires step > 0
    ensures x in Progression(start, end, step) <==> start <= x <= end && (x - start) % step == 0
    decreases if start > end then 0 else end - start + 1
  {
    if start <= end {
      ProgressionMembers(start + step, end, step, x);
      var p := Progression(start, end, step);
      assert p == [start] + Progression(start + step, end, step);
      DivModStep(x - (start + step), step);
      assert x - start == (x - (start + step)) + step;
      if start < x < start + step {
        DivModUnique(x - start, step, 0, x - start);
      }
      DivModUnique(0, step, 0, 0);
    }
  }

  /** The number of values: one more than the number of whole steps that fit
      into the range. */
  lemma {:induction false} ProgressionLength(start: int, end: int, step: int)
    requires step > 0 && start <= end
    ensures |Progression(start, end, step)| == (end - start) / step + 1
    decreases end - start
  {
    if start + step <= end {
      ProgressionLength(start + step, end, step);
      DivModStep(end - (start + step), step);
      assert end - start == (end - (start + step)) + step;
    } else {
      DivModUnique(end - start, step, 0, end - start);
    }
  }

  /** What the source promises of `GenerateValueSlice`: the four checks in
      their order, and on success an ascending progression inside the field
      domain. */
  lemma ValueSliceContract(rangeStart: int, rangeEnd: int, interval: int, fieldMin: int, fieldMax: int)
    ensures var r := ValueSlice(rangeStart, rangeEnd, interval, fieldMin, fieldMax);
      && !r.Abort?
      && (r == Err(InvalidInterval) <==> interval <= 0)
      && (r == Err(InvalidRange) <==> interval > 0 && rangeStart > rangeEnd)
      && (r == Err(BelowFieldMin) <==> interval > 0 && rangeStart <= rangeEnd && rangeStart < fieldMin)
      && (r == Err(AboveFieldMax) <==>
            interval > 0 && fieldMin <= rangeStart <= rangeEnd && rangeEnd > fieldMax)
      && (r.Ok? <==> 0 < interval && fieldMin <= rangeStart <= rangeEnd <= fieldMax)
      && (r.Ok? ==> IsProgression(r.value, rangeStart, rangeEnd, interval)
                    && StrictlyIncreasing(r.value)
                    && forall i :: 0 <= i < |r.value| ==> fieldMin <= r.value[i] <= fieldMax)
  {
    if 0 < interval && fieldMin <= rangeStart <= rangeEnd <= fieldMax {
      ProgressionIsProgression(rangeStart, rangeEnd, interval);
    }
  }

  /** `GenerateValueSlice`: the checks, then the loop that appends
      `rangeStart, rangeStart + interval, ...` while the value does not
      exceed `rangeEnd`. */
  method GenerateValueSlice(rangeStart: int, rangeEnd: int, interval: int, fieldMin: int, fieldMax: int)
    returns (r: Outcome<seq<int>, GenError>)
    ensures r == ValueSlice(rangeStart, rangeEnd, interval, fieldMin, fieldMax)
  {
    if interval <= 0 {
      return Err(InvalidInterval);
    }
    if rangeStart > rangeEnd {
      return Err(InvalidRange);
    }
    if rangeStart < fieldMin {
      return Err(BelowFieldMin);
    }
    if rangeEnd > fieldMax {
      return Err(AboveFieldMax);
    }
    var values: seq<int> := [];
    var value := rangeStart;
    while value <= rangeEnd
      invariant values + Progression(value, rangeEnd, interval) == Progression(rangeStart, rangeEnd, interval)
      decreases rangeEnd - value
    {
      values := values + [value];
      value := value + interval;
    }
    assert values + Progression(value, rangeEnd, interval) == values + [] == values;
    return Ok(values);
  }

  // ----- The loop as Go runs it, on 64-bit integers -----

  const TWO_TO_63: int := 0x8000_0000_0000_0000
  const TWO_TO_64: int := 0x1_0000_0000_0000_0000

  /** Go's 64-bit two's-complement wrap-around of an addition result. */
  function Wrap64(x: int): (w: int)
    ensures -TWO_TO_63 <= w < TWO_TO_63
    ensures (w - x) % TWO_TO_64 == 0
  {
    (x + TWO_TO_63) % TWO_TO_64 - TWO_TO_63
  }

  /** The loop at cronschedule.go:711-716 as written, where `value + interval`
      wraps around at 2^63, run for at most `fuel` iterations (`None` when
      the fuel runs out). Each value it appends passed the loop test, each
      next value is the wrapped sum, and the loop stops at the first value
      past `rangeEnd`; nothing here says the values ascend. */
  function GoValueLoop(value: int, rangeEnd: int, interval: int, fuel: nat): (r: Option<seq<int>>)
    ensures r.None? ==> value <= rangeEnd
    ensures r.Some? ==> |r.value| <= fuel
    ensures r.Some? && r.value == [] ==> value > rangeEnd
    ensures r.Some? && r.value != [] ==>
              && r.value[0] == value
              && Wrap64(r.value[|r.value| - 1] + interval) > rangeEnd
    ensures r.Some? ==> forall i :: 0 <= i < |r.value| ==> r.value[i] <= rangeEnd
    ensures r.Some? ==> forall i :: 0 < i < |r.value| ==> r.value[i] == Wrap64(r.value[i - 1] + interval)
    decreases fuel
  {
    if value > rangeEnd then Some([])
    else if fuel == 0 then None
    else match GoValueLoop(Wrap64(value + interval), rangeEnd, interval, fuel - 1)
      case Some(rest) => Some([value] + rest)
      case None => None
  }

  /** Without wrap-around the Go loop computes the progression whenever no
      intermediate sum leaves the 64-bit range and the fuel covers every
      step. */
  lemma {:induction false} GoValueLoopAgrees(value: int, rangeEnd: int, interval: int, fuel: nat)
    requires 0 < interval && -TWO_TO_63 <= value && rangeEnd + interval < TWO_TO_63
    requires value + fuel * interval > rangeEnd
    ensures GoValueLoop(value, rangeEnd, interval, fuel) == Some(Progression(value, rangeEnd, interval))
    decreases fuel
  {
    if value <= rangeEnd {
      assert fuel != 0;
      assert Wrap64(value + interval) == value + interval by {
        DivModUnique(value + interval + TWO_TO_63, TWO_TO_64, 0, value + interval + TWO_TO_63);
      }
      assert (value + interval) + (fuel - 1) * interval == value + fuel * interval;
      GoValueLoopAgrees(value + interval, rangeEnd, interval, fuel - 1);
    }
  }

  /** The token `3-3/9223372036854775807` reaches the loop with start 3, end 3
      and the largest `int` as interval. The sum 3 + interval wraps to a
      negative number, so the loop goes on and also emits 1, which lies in the
      minute domain although it is not in the range 3..3. */
  lemma WrapAroundExample()
    ensures GoValueLoop(3, 3, Text.MAX_INT, 5) == Some([3, 2 - TWO_TO_63, 1, -TWO_TO_63, -1])
    ensures Progression(3, 3, Text.MAX_INT) == [3]
    ensures 1 !in Progression(3, 3, Text.MAX_INT)
  {
    assert [3] + [2 - TWO_TO_63, 1, -TWO_TO_63, -1] == [3, 2 - TWO_TO_63, 1, -TWO_TO_63, -1];
    assert Wrap64(3 + Text.MAX_INT) == 2 - TWO_TO_63;
    assert Wrap64(2 - TWO_TO_63 + Text.MAX_INT) == 1;
    assert Wrap64(1 + Text.MAX_INT) == -TWO_TO_63;
    assert Wrap64(-TWO_TO_63 + Text.MAX_INT) == -1;
    assert Wrap64(-1 + Text.MAX_INT) == TWO_TO_63 - 2;
    assert [-1] + [] == [-1];
    assert GoValueLoop(TWO_TO_63 - 2, 3, Text.MAX_INT, 0) == Some([]);
    assert GoValueLoop(-1, 3, Text.MAX_INT, 1) == Some([-1]);
    assert [-TWO_TO_63] + [-1] == [-TWO_TO_63, -1];
    assert GoValueLoop(-TWO_TO_63, 3, Text.MAX_INT, 2) == Some([-TWO_TO_63, -1]);
    assert [1] + [-TWO_TO_63, -1] == [1, -TWO_TO_63, -1];
    assert GoValueLoop(1, 3, Text.MAX_INT, 3) == Some([1, -TWO_TO_63, -1]);
    assert [2 - TWO_TO_63] + [1, -TWO_TO_63, -1] == [2 - TWO_TO_63, 1, -TWO_TO_63, -1];
    assert GoValueLoop(2 - TWO_TO_63, 3, Text.MAX_INT, 4) == Some([2 - TWO_TO_63, 1, -TWO_TO_63, -1]);
  }
}
