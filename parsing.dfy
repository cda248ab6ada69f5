/** What `Parse` (cronschedule.go:417-483) computes from the schedule text,
    as pure functions: the fields, the values of each field in order, the
    first error, and which day maps survive the day-of-month /
    day-of-week rule. */
module ScheduleText {
  import opened Wrappers
  import opened Text
  import opened Fields
  import opened FieldTokens
  import opened Counts

  /** Why `Parse` fails. */
  datatype ParseError =
    | WrongFieldCount(found: nat)
    | EmptyField(field: string)
    | BadValue(field: string, value: string, cause: FieldError)

  /** The space-separated fields of the trimmed schedule text. */
  function FieldTexts(text: string): (r: seq<string>)
    ensures |r| >= 1
  {
    Split(TrimSpace(text), ' ')
  }

  /** What `ParseFieldValue` makes of each comma-separated token of field
      `index`. */
  function TokenResults(tokens: seq<string>, index: int): (r: seq<Outcome<seq<int>, FieldError>>)
    requires 0 <= index < FIELD_COUNT
    ensures |r| == |tokens|
  {
    seq(|tokens|, i requires 0 <= i < |tokens| => FieldValue(tokens[i], FieldMin(index), FieldMax(index)))
  }

  /** The values of the first `n` tokens one after the other, stopping at
      the first token that fails; `field` names the field in the error. */
  function Collect(tokens: seq<string>, results: seq<Outcome<seq<int>, FieldError>>, field: string, n: nat)
    : Outcome<seq<int>, ParseError>
    requires |results| == |tokens| && n <= |tokens|
  {
    if n == 0 then Ok([])
    else match Collect(tokens, results, field, n - 1)
      case Ok(acc) =>
        (match results[n - 1]
         case Ok(vs) => Ok(acc + vs)
         case Err(e) => Err(BadValue(field, tokens[n - 1], e))
         case Abort => Abort)
      case Err(e) => Err(e)
      case Abort => Abort
  }

  /** The values of the comma-separated tokens of field `index`, one token
      after the other, stopping at the first token that fails. */
  function TokensValues(tokens: seq<string>, index: int): Outcome<seq<int>, ParseError>
    requires 0 <= index < FIELD_COUNT
  {
    Collect(tokens, TokenResults(tokens, index), FieldNameByIndex(index), |tokens|)
  }

  /** What each of the first `n` fields yields on its own. */
  function ResultsUpTo(fields: seq<string>, n: nat): (r: seq<Outcome<seq<int>, ParseError>>)
    requires n <= |fields| && n <= FIELD_COUNT
    ensures |r| == n
  {
    if n == 0 then [] else ResultsUpTo(fields, n - 1) + [TokensValues(Split(fields[n - 1], ','), n - 1)]
  }

  /** What each of the five fields yields on its own. */
  function FieldResults(fields: seq<string>): (r: seq<Outcome<seq<int>, ParseError>>)
    requires |fields| == FIELD_COUNT
    ensures |r| == FIELD_COUNT
  {
    ResultsUpTo(fields, |fields|)
  }

  lemma {:induction false} ResultsUpToAt(fields: seq<string>, n: nat, i: nat)
    requires n <= |fields| && n <= FIELD_COUNT && i < n
    ensures ResultsUpTo(fields, n)[i] == TokensValues(Split(fields[i], ','), i)
  {
    var prev := ResultsUpTo(fields, n - 1);
    var last := TokensValues(Split(fields[n - 1], ','), n - 1);
    assert ResultsUpTo(fields, n) == prev + [last];
    if i < n - 1 {
      ResultsUpToAt(fields, n - 1, i);
      assert (prev + [last])[i] == prev[i];
    } else {
      assert (prev + [last])[i] == last;
    }
  }

  /** Field `i`'s result is what its own tokens yield. */
  lemma FieldResultsAt(fields: seq<string>, i: nat)
    requires |fields| == FIELD_COUNT && i < FIELD_COUNT
    ensures FieldResults(fields)[i] == TokensValues(Split(fields[i], ','), i)
  {
    ResultsUpToAt(fields, |fields|, i);
  }

  /** The values of the first `n` fields, field by field, stopping at the
      first empty field or failing token. */
  function Assemble(fields: seq<string>, results: seq<Outcome<seq<int>, ParseError>>, n: nat)
    : Outcome<seq<seq<int>>, ParseError>
    requires |fields| == |results| == FIELD_COUNT && n <= FIELD_COUNT
  {
    if n == 0 then Ok([])
    else match Assemble(fields, results, n - 1)
      case Ok(acc) =>
        if fields[n - 1] == "" then Err(EmptyField(FieldNameByIndex(n - 1)))
        else
          (match results[n - 1]
           case Ok(vs) => Ok(acc + [vs])
           case Err(e) => Err(e)
           case Abort => Abort)
      case Err(e) => Err(e)
      case Abort => Abort
  }

  /** The outcome of `Parse`: exactly five fields, then the five fields'
      values. */
  function ParseText(text: string): Outcome<seq<seq<int>>, ParseError> {
    var fields := FieldTexts(text);
    if |fields| != FIELD_COUNT then Err(WrongFieldCount(|fields|))
    else Assemble(fields, FieldResults(fields), |fields|)
  }

  /** Which of the two day maps `Parse` keeps (cronschedule.go:462-479): a
      wildcard day field gives way to a restricted one. */
  function KeepDays(dayOfMonthField: string, dayOfWeekField: string): (keep: (bool, bool))
    ensures dayOfMonthField == "*" && dayOfWeekField == "*" ==> keep == (true, true)
    ensures dayOfMonthField == "*" && dayOfWeekField != "*" ==> keep == (false, true)
    ensures dayOfMonthField != "*" && dayOfWeekField == "*" ==> keep == (true, false)
    ensures dayOfMonthField != "*" && dayOfWeekField != "*" ==> keep == (true, true)
  {
    (!(dayOfMonthField == "*" && dayOfWeekField != "*"), !(dayOfMonthField != "*" && dayOfWeekField == "*"))
  }

  /** The value map of field `index` after `Parse`: its values counted into
      an empty map. */
  function FieldMap(values: seq<int>, index: int): map<int, int>
    requires 0 <= index < FIELD_COUNT
  {
    Counted(map[], values, FieldMin(index), FieldMax(index))
  }

  /** Counting two lists one after the other counts their concatenation. */
  lemma {:induction false} CountedAppend(m: map<int, int>, a: seq<int>, b: seq<int>, lo: int, hi: int)
    ensures Counted(Counted(m, a, lo, hi), b, lo, hi) == Counted(m, a + b, lo, hi)
    decreases |b|
  {
    if b != [] {
      CountedAppend(m, a, b[..|b| - 1], lo, hi);
      assert (a + b)[..|a + b| - 1] == a + b[..|b| - 1];
      assert (a + b)[|a + b| - 1] == b[|b| - 1];
    } else {
      assert a + b == a;
    }
  }

  /** The values of the fields of a parsed text lie in their fields'
      domains. */
  lemma TokensValuesInDomain(tokens: seq<string>, index: int)
    requires 0 <= index < FIELD_COUNT
    ensures TokensValues(tokens, index).Ok? ==>
      var vs := TokensValues(tokens, index).value;
      forall i :: 0 <= i < |vs| ==> FieldMin(index) <= vs[i] <= FieldMax(index)
  {
    var results := TokenResults(tokens, index);
    forall i | 0 <= i < |tokens|
      ensures results[i].Ok? ==> forall j :: 0 <= j < |results[i].value| ==>
                FieldMin(index) <= results[i].value[j] <= FieldMax(index)
    {
      FieldValueInDomain(tokens[i], FieldMin(index), FieldMax(index));
    }
    CollectInRange(tokens, results, FieldNameByIndex(index), |tokens|, FieldMin(index), FieldMax(index));
    assert TokensValues(tokens, index) == Collect(tokens, results, FieldNameByIndex(index), |tokens|);
  }

  lemma {:induction false} CollectInRange(tokens: seq<string>, results: seq<Outcome<seq<int>, FieldError>>,
                                          field: string, n: nat, lo: int, hi: int)
    requires |results| == |tokens| && n <= |tokens|
    requires forall i :: 0 <= i < |tokens| ==> results[i].Ok? ==>
               forall j :: 0 <= j < |results[i].value| ==> lo <= results[i].value[j] <= hi
    ensures Collect(tokens, results, field, n).Ok? ==>
      var vs := Collect(tokens, results, field, n).value;
      forall i :: 0 <= i < |vs| ==> lo <= vs[i] <= hi
  {
    if n > 0 {
      CollectInRange(tokens, results, field, n - 1, lo, hi);
      if Collect(tokens, results, field, n).Ok? {
        assert Collect(tokens, results, field, n - 1).Ok? && results[n - 1].Ok?;
        var acc := Collect(tokens, results, field, n - 1).value;
        var vs := results[n - 1].value;
        assert Collect(tokens, results, field, n).value == acc + vs;
        forall i | 0 <= i < |acc + vs| ensures lo <= (acc + vs)[i] <= hi {
          if i >= |acc| { assert (acc + vs)[i] == vs[i - |acc|]; }
        }
      }
    }
  }

  /** A schedule text parses only when it has five fields, none of them
      empty. */
  lemma ParseTextShape(text: string)
    ensures ParseText(text).Err? && ParseText(text).error.WrongFieldCount? <==> |FieldTexts(text)| != FIELD_COUNT
    ensures ParseText(text).Ok? ==>
      |ParseText(text).value| == FIELD_COUNT
      && forall i :: 0 <= i < FIELD_COUNT ==> FieldTexts(text)[i] != ""
  {
    var fields := FieldTexts(text);
    if |fields| == FIELD_COUNT {
      var results := FieldResults(fields);
      forall i | 0 <= i < FIELD_COUNT
        ensures results[i].Err? ==> results[i].error.BadValue?
      {
        FieldResultsAt(fields, i);
        TokensValuesNotCount(Split(fields[i], ','), i);
      }
      AssembleShape(fields, results, |fields|);
    }
  }

  lemma {:induction false} AssembleShape(fields: seq<string>, results: seq<Outcome<seq<int>, ParseError>>, n: nat)
    requires |fields| == |results| == FIELD_COUNT && n <= FIELD_COUNT
    requires forall i :: 0 <= i < FIELD_COUNT ==> results[i].Err? ==> results[i].error.BadValue?
    ensures Assemble(fields, results, n).Err? ==> !Assemble(fields, results, n).error.WrongFieldCount?
    ensures Assemble(fields, results, n).Ok? ==>
      |Assemble(fields, results, n).value| == n && forall i :: 0 <= i < n ==> fields[i] != ""
  {
    if n > 0 {
      AssembleShape(fields, results, n - 1);
    }
  }

  lemma TokensValuesNotCount(tokens: seq<string>, index: int)
    requires 0 <= index < FIELD_COUNT
    ensures TokensValues(tokens, index).Err? ==> TokensValues(tokens, index).error.BadValue?
  {
    CollectNotCount(tokens, TokenResults(tokens, index), FieldNameByIndex(index), |tokens|);
  }

  lemma {:induction false} CollectNotCount(tokens: seq<string>, results: seq<Outcome<seq<int>, FieldError>>,
                                           field: string, n: nat)
    requires |results| == |tokens| && n <= |tokens|
    ensures Collect(tokens, results, field, n).Err? ==> Collect(tokens, results, field, n).error.BadValue?
  {
    if n > 0 {
      CollectNotCount(tokens, results, field, n - 1);
    }
  }

  /** Once a token fails, the values of longer prefixes fail the same way:
      `Parse` returns at the first failing token. */
  lemma {:induction false} CollectStops(tokens: seq<string>, results: seq<Outcome<seq<int>, FieldError>>,
                                        field: string, k: nat, n: nat)
    requires |results| == |tokens| && k <= n <= |tokens|
    requires !Collect(tokens, results, field, k).Ok?
    ensures Collect(tokens, results, field, n) == Collect(tokens, results, field, k)
    decreases n
  {
    if n > k {
      CollectStops(tokens, results, field, k, n - 1);
    }
  }

  /** Once a field fails, the values of longer prefixes fail the same way:
      `Parse` returns at the first failing field. */
  lemma {:induction false} AssembleStops(fields: seq<string>, results: seq<Outcome<seq<int>, ParseError>>,
                                         k: nat, n: nat)
    requires |fields| == |results| == FIELD_COUNT && k <= n <= FIELD_COUNT
    requires !Assemble(fields, results, k).Ok?
    ensures Assemble(fields, results, n) == Assemble(fields, results, k)
    decreases n
  {
    if n > k {
      AssembleStops(fields, results, k, n - 1);
    }
  }

  /** One more field: its values appended, or its emptiness or failure
      reported. */
  lemma AssembleStep(fields: seq<string>, results: seq<Outcome<seq<int>, ParseError>>, k: nat)
    requires |fields| == |results| == FIELD_COUNT && k < FIELD_COUNT && Assemble(fields, results, k).Ok?
    ensures fields[k] == "" ==> Assemble(fields, results, k + 1) == Err(EmptyField(FieldNameByIndex(k)))
    ensures fields[k] != "" && results[k].Ok? ==>
      Assemble(fields, results, k + 1) == Ok(Assemble(fields, results, k).value + [results[k].value])
    ensures fields[k] != "" && results[k].Err? ==> Assemble(fields, results, k + 1) == Err(results[k].error)
    ensures fields[k] != "" && results[k].Abort? ==> Assemble(fields, results, k + 1) == Abort
  {
  }

  /** One more token: its values appended, or its failure reported. */
  lemma CollectStep(tokens: seq<string>, results: seq<Outcome<seq<int>, FieldError>>, field: string, k: nat)
    requires |results| == |tokens| && k < |tokens| && Collect(tokens, results, field, k).Ok?
    ensures results[k].Ok? ==>
      Collect(tokens, results, field, k + 1) == Ok(Collect(tokens, results, field, k).value + results[k].value)
    ensures results[k].Err? ==>
      Collect(tokens, results, field, k + 1) == Err(BadValue(field, tokens[k], results[k].error))
    ensures results[k].Abort? ==> Collect(tokens, results, field, k + 1) == Abort
  {
  }
}
