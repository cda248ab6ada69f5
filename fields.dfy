/** The five fields of a cron expression and their fixed value domains
    (cronschedule.go:28-37). Index 0 is the minute, 1 the hour, 2 the day of
    the month, 3 the month and 4 the day of the week (0 = Sunday). */
module Fields {
  import opened Wrappers

  const MINUTE_MIN: int := 0
  const MINUTE_MAX: int := 59
  const HOUR_MIN: int := 0
  const HOUR_MAX: int := 23
  const DAY_OF_MONTH_MIN: int := 1
  const DAY_OF_MONTH_MAX: int := 31
  const MONTH_MIN: int := 1
  const MONTH_MAX: int := 12
  const DAY_OF_WEEK_MIN: int := 0
  const DAY_OF_WEEK_MAX: int := 6

  const FIELD_COUNT: nat := 5

  /** Error of `FieldMinMaxByIndex` for an index that names no field. */
  datatype IndexError = UnknownIndex(index: int)

  /** The display name of field `i`; "invalid" for an index that names no field. */
  function FieldNameByIndex(i: int): (name: string)
    ensures (0 <= i < FIELD_COUNT) <==> name != "invalid"
  {
    match i
    case 0 => "minute"
    case 1 => "hour"
    case 2 => "day of month"
    case 3 => "month"
    case 4 => "day of week"
    case _ => "invalid"
  }

  /** The five fields have five different names. */
  lemma FieldNamesDistinct(i: int, j: int)
    requires 0 <= i < j < FIELD_COUNT
    ensures FieldNameByIndex(i) != FieldNameByIndex(j)
  {
  }

  /** The inclusive `(min, max)` domain of field `i`, or an error for an index
      that names no field. */
  function FieldMinMaxByIndex(i: int): (r: Outcome<(int, int), IndexError>)
    ensures r.Ok? <==> 0 <= i < FIELD_COUNT
    ensures r.Err? ==> r.error == UnknownIndex(i)
    ensures r.Ok? ==> 0 <= r.value.0 < r.value.1
  {
    match i
    case 0 => Ok((MINUTE_MIN, MINUTE_MAX))
    case 1 => Ok((HOUR_MIN, HOUR_MAX))
    case 2 => Ok((DAY_OF_MONTH_MIN, DAY_OF_MONTH_MAX))
    case 3 => Ok((MONTH_MIN, MONTH_MAX))
    case 4 => Ok((DAY_OF_WEEK_MIN, DAY_OF_WEEK_MAX))
    case _ => Err(UnknownIndex(i))
  }

  /** Minimum of field `i` (0 <= i < 5). */
  function FieldMin(i: int): int
    requires 0 <= i < FIELD_COUNT
  {
    FieldMinMaxByIndex(i).value.0
  }

  /** Maximum of field `i` (0 <= i < 5). */
  function FieldMax(i: int): int
    requires 0 <= i < FIELD_COUNT
  {
    FieldMinMaxByIndex(i).value.1
  }
}
