/** The field-token parser `ParseFieldValue` (cronschedule.go:494-643). The
    anchored regular expression of cronschedule.go:24 is replaced by a pure
    classifier into the six token shapes it accepts. */
module FieldTokens {
  import opened Wrappers
  import opened Text
  import opened Generator

  /** The six token shapes of one comma-separated value, carrying their
      digit groups as text. Every group is `\d*` in the regular expression,
      so a group may be empty. */
  datatype Shape =
    | Star                                              // *
    | StarStep(step: string)                            // */b
    | Span(low: string, high: string)                   // a-b
    | SpanStep(low: string, high: string, step: string) // a-b/c
    | FromStep(low: string, step: string)               // a/b
    | Literal(digits: string)                           // a

  /** Every digit group consists of decimal digits only. */
  predicate WellFormed(sh: Shape) {
    match sh
    case Star => true
    case StarStep(n) => AllDigits(n)
    case Span(a, b) => AllDigits(a) && AllDigits(b)
    case SpanStep(a, b, n) => AllDigits(a) && AllDigits(b) && AllDigits(n)
    case FromStep(a, n) => AllDigits(a) && AllDigits(n)
    case Literal(a) => AllDigits(a)
  }

  /** The text a shape stands for. */
  function Render(sh: Shape): string {
    match sh
    case Star => "*"
    case StarStep(n) => "*/" + n
    case Span(a, b) => a + "-" + b
    case SpanStep(a, b, n) => a + "-" + b + "/" + n
    case FromStep(a, n) => a + "/" + n
    case Literal(a) => a
  }

  /** The text before and after the first `c` in `s`. */
  function SplitAt(s: string, c: char): (r: (string, string))
    requires c in s
    ensures s == r.0 + [c] + r.1 && c !in r.0
  {
    var i := IndexOf(s, c);
    assert s == s[..i] + [c] + s[i + 1..];
    (s[..i], s[i + 1..])
  }

  /** The classifier that replaces `re.FindAllStringSubmatch`: which of the
      six alternatives of the regular expression matches the whole token,
      with its groups; `None` when none does. */
  function Classify(s: string): Option<Shape> {
    if s == "*" then Some(Star)
    else if |s| >= 2 && s[0] == '*' && s[1] == '/' then
      if AllDigits(s[2..]) then Some(StarStep(s[2..])) else None
    else if '-' in s then
      var (a, rest) := SplitAt(s, '-');
      ClassifyRange(a, rest)
    else if '/' in s then
      var (a, n) := SplitAt(s, '/');
      if AllDigits(a) && AllDigits(n) then Some(FromStep(a, n)) else None
    else if AllDigits(s) then Some(Literal(s))
    else None
  }

  /** The classifier on a token with a `-`, given the text `a` before the
      first `-` and the text `rest` after it: `a-b` or `a-b/c`. */
  function ClassifyRange(a: string, rest: string): Option<Shape> {
    if !AllDigits(a) then None
    else if AllDigits(rest) then Some(Span(a, rest))
    else if '/' in rest then
      var (b, n) := SplitAt(rest, '/');
      if AllDigits(b) && AllDigits(n) then Some(SpanStep(a, b, n)) else None
    else None
  }

  /** What the classifier finds is a well-formed shape that renders to the
      token. */
  lemma ClassifySound(s: string)
    ensures Classify(s).Some? ==> WellFormed(Classify(s).value) && Render(Classify(s).value) == s
  {
    if s != "*" && |s| >= 2 && s[0] == '*' && s[1] == '/' {
      StarStepSound(s);
    } else if s != "*" && '-' in s {
      SpanSound(s);
    }
  }

  lemma StarStepSound(s: string)
    requires s != "*" && |s| >= 2 && s[0] == '*' && s[1] == '/'
    ensures Classify(s).Some? ==> WellFormed(Classify(s).value) && Render(Classify(s).value) == s
  {
    assert s == "*/" + s[2..];
  }

  lemma SpanSound(s: string)
    requires s != "*" && !(|s| >= 2 && s[0] == '*' && s[1] == '/') && '-' in s
    ensures Classify(s).Some? ==> WellFormed(Classify(s).value) && Render(Classify(s).value) == s
  {
    var (a, rest) := SplitAt(s, '-');
    assert Classify(s) == ClassifyRange(a, rest);
    RangeSound(a, rest);
  }

  lemma RangeSound(a: string, rest: string)
    ensures ClassifyRange(a, rest).Some? ==>
              WellFormed(ClassifyRange(a, rest).value) && Render(ClassifyRange(a, rest).value) == a + "-" + rest
  {
    if AllDigits(a) && !AllDigits(rest) && '/' in rest {
      var (b, n) := SplitAt(rest, '/');
      assert a + "-" + rest == a + "-" + b + "/" + n;
    }
  }

  /** In `a + [c] + b` with a digit string `a`, the split at the first
      non-digit `c` gives back `a` and `b`. */
  lemma SplitAfterDigits(a: string, c: char, b: string)
    requires AllDigits(a) && !IsDigit(c)
    ensures c in a + [c] + b
    ensures SplitAt(a + [c] + b, c) == (a, b)
  {
    var s := a + [c] + b;
    assert s[|a|] == c;
    var (x, y) := SplitAt(s, c);
    assert x == a;
  }

  /** Every well-formed shape is recognised from its text, as itself: the
      six shapes are exactly the language of the regular expression and do
      not overlap. */
  lemma {:induction false} ClassifyComplete(sh: Shape)
    requires WellFormed(sh)
    ensures Classify(Render(sh)) == Some(sh)
  {
    match sh
    case Star =>
    case StarStep(n) =>
      assert Render(sh)[2..] == n;
    case Span(a, b) =>
      ClassifySpan(a, b);
    case SpanStep(a, b, n) =>
      ClassifySpanStep(a, b, n);
    case FromStep(a, n) =>
      ClassifyFromStep(a, n);
    case Literal(a) =>
      if |a| > 0 { assert Render(sh)[0] == a[0]; }
  }

  lemma ClassifySpan(a: string, b: string)
    requires AllDigits(a) && AllDigits(b)
    ensures Classify(a + "-" + b) == Some(Span(a, b))
  {
    var s := a + "-" + b;
    SplitAfterDigits(a, '-', b);
    assert s == a + ['-'] + b;
    if |a| > 0 { assert s[0] == a[0]; } else { assert s[0] == '-'; }
  }

  lemma ClassifySpanStep(a: string, b: string, n: string)
    requires AllDigits(a) && AllDigits(b) && AllDigits(n)
    ensures Classify(a + "-" + b + "/" + n) == Some(SpanStep(a, b, n))
  {
    var s := a + "-" + b + "/" + n;
    var rest := b + ['/'] + n;
    assert s == a + ['-'] + rest;
    SplitAfterDigits(a, '-', rest);
    if |a| > 0 { assert s[0] == a[0]; } else { assert s[0] == '-'; }
    assert Classify(s) == ClassifyRange(a, rest);
    SplitAfterDigits(b, '/', n);
    assert !AllDigits(rest) by { assert rest[|b|] == '/'; }
  }

  lemma ClassifyFromStep(a: string, n: string)
    requires AllDigits(a) && AllDigits(n)
    ensures Classify(a + "/" + n) == Some(FromStep(a, n))
  {
    var s := a + "/" + n;
    assert s == a + ['/'] + n;
    SplitAfterDigits(a, '/', n);
    assert '-' !in s by {
      assert forall k :: 0 <= k < |s| ==> s[k] == '/' || IsDigit(s[k]);
    }
    if |a| > 0 { assert s[0] == a[0]; } else { assert s[0] == '/'; }
  }

  /** Why a token yields no values: it is in none of the six shapes, or the
      generator rejected its numbers. */
  datatype FieldError = UnsupportedFormat | Generate(cause: GenError)

  /** Lift a generator result into a token result. */
  function FromGenerator(g: Outcome<seq<int>, GenError>): Outcome<seq<int>, FieldError> {
    match g
    case Ok(vs) => Ok(vs)
    case Err(e) => Err(Generate(e))
    case Abort => Abort
  }

  /** The values of a recognised shape: its range and step handed to the
      generator; `Abort` where the source panics, which is when a digit
      group is empty or too large for `Atoi`. The step of `a-b/c` is
      converted before its bounds, but all three failures are the same
      panic. */
  function ShapeValue(sh: Shape, min: int, max: int): Outcome<seq<int>, FieldError>
    requires WellFormed(sh)
  {
    match sh
    case Star => FromGenerator(ValueSlice(min, max, 1, min, max))
    case StarStep(n) =>
      if Atoi(n).None? then Abort
      else FromGenerator(ValueSlice(min, max, Atoi(n).value, min, max))
    case Span(a, b) =>
      if Atoi(a).None? || Atoi(b).None? then Abort
      else FromGenerator(ValueSlice(Atoi(a).value, Atoi(b).value, 1, min, max))
    case SpanStep(a, b, n) =>
      if Atoi(n).None? || Atoi(a).None? || Atoi(b).None? then Abort
      else FromGenerator(ValueSlice(Atoi(a).value, Atoi(b).value, Atoi(n).value, min, max))
    case FromStep(a, n) =>
      if Atoi(a).None? || Atoi(n).None? then Abort
      else FromGenerator(ValueSlice(Atoi(a).value, max, Atoi(n).value, min, max))
    case Literal(a) =>
      // the empty token matches the last alternative with an empty group
      // and falls through every case of the switch to its panic
      if a == "" then Abort
      else if Atoi(a).None? then Abort
      else FromGenerator(ValueSlice(Atoi(a).value, Atoi(a).value, 1, min, max))
  }

  /** What `ParseFieldValue(value, min, max)` returns: `UnsupportedFormat`
      for a token of none of the six shapes, otherwise the shape's values. */
  function FieldValue(value: string, min: int, max: int): Outcome<seq<int>, FieldError> {
    ClassifySound(value);
    if Classify(value).None? then Err(UnsupportedFormat)
    else ShapeValue(Classify(value).value, min, max)
  }

  /** `ParseFieldValue`: classify the token, convert its digit groups and
      delegate to `GenerateValueSlice`. */
  method ParseFieldValue(value: string, min: int, max: int) returns (r: Outcome<seq<int>, FieldError>)
    ensures r == FieldValue(value, min, max)
  {
    var shape := Classify(value);
    if shape.None? {
      return Err(UnsupportedFormat);
    }
    ClassifySound(value);
    var g: Outcome<seq<int>, GenError>;
    match shape.value {
      case Star =>
        g := GenerateValueSlice(min, max, 1, min, max);
      case StarStep(n) =>
        var step := Atoi(n);
        if step.None? { return Abort; }
        g := GenerateValueSlice(min, max, step.value, min, max);
      case Span(a, b) =>
        var start, end := Atoi(a), Atoi(b);
        if start.None? || end.None? { return Abort; }
        g := GenerateValueSlice(start.value, end.value, 1, min, max);
      case SpanStep(a, b, n) =>
        var step, start, end := Atoi(n), Atoi(a), Atoi(b);
        if step.None? || start.None? || end.None? { return Abort; }
        g := GenerateValueSlice(start.value, end.value, step.value, min, max);
      case FromStep(a, n) =>
        var start, step := Atoi(a), Atoi(n);
        if start.None? || step.None? { return Abort; }
        g := GenerateValueSlice(start.value, max, step.value, min, max);
      case Literal(a) =>
        if a == "" { return Abort; }
        var v := Atoi(a);
        if v.None? { return Abort; }
        g := GenerateValueSlice(v.value, v.value, 1, min, max);
    }
    r := FromGenerator(g);
  }

  /** A digit group that `Atoi` accepts: non-empty and within Go's `int`. */
  predicate Number(d: string) {
    AllDigits(d) && d != [] && DigitsValue(d) <= MAX_INT
  }

  /** The meaning of each of the six shapes, written as the text a user
      types: `*` is the field's whole domain with step 1, `*` slash `b` the whole
      domain with step b, `a-b` the range a..b, `a-b/c` that range with step
      c, `a/b` the range from a to the field maximum with step b, and `a`
      the single value a. */
  lemma {:induction false} ShapeMeaning(min: int, max: int, a: string, b: string, c: string)
    ensures FieldValue("*", min, max) == FromGenerator(ValueSlice(min, max, 1, min, max))
    ensures Number(c) ==>
              FieldValue("*/" + c, min, max) == FromGenerator(ValueSlice(min, max, DigitsValue(c), min, max))
    ensures Number(a) && Number(b) ==>
              FieldValue(a + "-" + b, min, max)
              == FromGenerator(ValueSlice(DigitsValue(a), DigitsValue(b), 1, min, max))
    ensures Number(a) && Number(b) && Number(c) ==>
              FieldValue(a + "-" + b + "/" + c, min, max)
              == FromGenerator(ValueSlice(DigitsValue(a), DigitsValue(b), DigitsValue(c), min, max))
    ensures Number(a) && Number(c) ==>
              FieldValue(a + "/" + c, min, max)
              == FromGenerator(ValueSlice(DigitsValue(a), max, DigitsValue(c), min, max))
    ensures Number(a) ==>
              FieldValue(a, min, max) == FromGenerator(ValueSlice(DigitsValue(a), DigitsValue(a), 1, min, max))
  {
    ClassifyComplete(Star);
    if Number(c) {
      ClassifyComplete(StarStep(c));
    }
    if Number(a) && Number(b) {
      ClassifyComplete(Span(a, b));
    }
    if Number(a) && Number(b) && Number(c) {
      ClassifyComplete(SpanStep(a, b, c));
    }
    if Number(a) && Number(c) {
      ClassifyComplete(FromStep(a, c));
    }
    if Number(a) {
      ClassifyComplete(Literal(a));
    }
  }

  /** A recognised shape never reports an unsupported format. */
  lemma ShapeValueSupported(sh: Shape, min: int, max: int)
    requires WellFormed(sh)
    ensures ShapeValue(sh, min, max) != Err(UnsupportedFormat)
  {
  }

  /** A token is rejected as unsupported exactly when it has none of the six
      shapes. */
  lemma UnsupportedMeaning(value: string, min: int, max: int)
    ensures FieldValue(value, min, max) == Err(UnsupportedFormat)
            <==> forall sh :: WellFormed(sh) ==> Render(sh) != value
  {
    ClassifySound(value);
    if Classify(value).Some? {
      ShapeValueSupported(Classify(value).value, min, max);
    } else {
      forall sh | WellFormed(sh) ensures Render(sh) != value {
        ClassifyComplete(sh);
      }
    }
  }

  /** The tokens the regular expression accepts although a digit group is
      empty all reach a `panic`: a star and slash with no step, `-`, `1-`,
      and the empty token between two commas of `1,,2`. */
  lemma AbortExamples(min: int, max: int)
    ensures FieldValue("*/", min, max) == Abort
    ensures FieldValue("-", min, max) == Abort
    ensures FieldValue("1-", min, max) == Abort
    ensures FieldValue("", min, max) == Abort
  {
    assert Render(StarStep("")) == "*/";
    ClassifyComplete(StarStep(""));
    assert Render(Span("", "")) == "-";
    ClassifyComplete(Span("", ""));
    assert Render(Span("1", "")) == "1-";
    ClassifyComplete(Span("1", ""));
    ClassifyComplete(Literal(""));
  }

  /** A number beyond Go's 64-bit `int`, 9223372036854775808, reaches the
      `panic` of `strconv.Atoi` too. */
  lemma OverflowAborts(min: int, max: int)
    ensures FieldValue(DecimalText(MAX_INT + 1), min, max) == Abort
  {
    DigitsValueDecimalText(MAX_INT + 1);
    ClassifyComplete(Literal(DecimalText(MAX_INT + 1)));
  }

  /** A value above the field's maximum, 70 on the minute field `[0, 59]`,
      is the generator's `AboveFieldMax` error. */
  lemma AboveMaxExample()
    ensures FieldValue("70", 0, 59) == Err(Generate(AboveFieldMax))
  {
    ClassifyComplete(Literal("70"));
    assert Classify("70") == Some(Literal("70"));
    assert "70"[..1] == "7" && "7"[..0] == [];
    assert DigitsValue("70") == 70;
    assert Atoi("70") == Some(70);
  }

  /** A reversed range `5-1` is `InvalidRange`, a star with a zero step is
      `InvalidInterval`, and 0 on the day-of-month field `[1, 31]` is
      `BelowFieldMin`. */
  lemma GeneratorErrorExamples()
    ensures FieldValue("5-1", 0, 59) == Err(Generate(InvalidRange))
    ensures FieldValue("*/0", 0, 59) == Err(Generate(InvalidInterval))
    ensures FieldValue("0", 1, 31) == Err(Generate(BelowFieldMin))
  {
    ClassifyComplete(Span("5", "1"));
    assert Render(Span("5", "1")) == "5-1";
    assert DigitsValue("5") == 5 && DigitsValue("1") == 1;
    ClassifyComplete(StarStep("0"));
    assert Render(StarStep("0")) == "*/0";
    assert DigitsValue("0") == 0;
    ClassifyComplete(Literal("0"));
    assert Classify("0") == Some(Literal("0"));
  }

  /** Whatever a token yields lies in the field's domain, ascending without
      repetition. */
  lemma FieldValueInDomain(value: string, min: int, max: int)
    ensures FieldValue(value, min, max).Ok? ==>
      var vs := FieldValue(value, min, max).value;
      StrictlyIncreasing(vs) && forall i :: 0 <= i < |vs| ==> min <= vs[i] <= max
  {
    ClassifySound(value);
    if Classify(value).Some? {
      ShapeValueInDomain(Classify(value).value, min, max);
    }
  }

  lemma ShapeValueInDomain(sh: Shape, min: int, max: int)
    requires WellFormed(sh)
    ensures ShapeValue(sh, min, max).Ok? ==>
      var vs := ShapeValue(sh, min, max).value;
      StrictlyIncreasing(vs) && forall i :: 0 <= i < |vs| ==> min <= vs[i] <= max
  {
    match sh
    case Star => ValueSliceContract(min, max, 1, min, max);
    case StarStep(n) =>
      if Atoi(n).Some? { ValueSliceContract(min, max, Atoi(n).value, min, max); }
    case Span(a, b) =>
      if Atoi(a).Some? && Atoi(b).Some? { ValueSliceContract(Atoi(a).value, Atoi(b).value, 1, min, max); }
    case SpanStep(a, b, n) =>
      if Atoi(a).Some? && Atoi(b).Some? && Atoi(n).Some? {
        ValueSliceContract(Atoi(a).value, Atoi(b).value, Atoi(n).value, min, max);
      }
    case FromStep(a, n) =>
      if Atoi(a).Some? && Atoi(n).Some? { ValueSliceContract(Atoi(a).value, max, Atoi(n).value, min, max); }
    case Literal(a) =>
      if Atoi(a).Some? { ValueSliceContract(Atoi(a).value, Atoi(a).value, 1, min, max); }
  }
}
