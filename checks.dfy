/** The `Check` value object of the second-generation probe
    (check_redis_2.py): one metric, its resolved value, its limits and the
    comparison direction, with the threshold predicates `is_warning` and
    `is_error`. */
module Checks {
  import opened Base
  import opened Text

  /** A resolved metric value, after the integer / float / string coercion. */
  datatype Value = IntV(i: int) | RealV(r: real) | StrV(s: string)

  datatype Check = Check(
    key: string,
    value: Option<Value>,
    warningLimit: Option<real>,
    errorLimit: Option<real>,
    ascending: bool,
    minimum: Option<real>,
    maximum: Option<real>,
    forced: bool)

  /** A check as the constructor leaves it: no value, no limits, no bounds,
      ascending. */
  function NewCheck(key: string, forced: bool): Check
  {
    Check(key, None, None, None, true, None, None, forced)
  }

  /** Python's `float()` of a check value. */
  function FloatOf(v: Value): Result<real>
  {
    match v
    case IntV(i) => Ok(i as real)
    case RealV(r) => Ok(r)
    case StrV(s) => FloatOfText(s)
  }

  /** `Check._evaluate`: false when the value or the limit is missing;
      otherwise whether `float(value) - limit` is positive (ascending) or
      negative (descending). */
  function Evaluate(c: Check, value: Option<Value>, limit: Option<real>): Result<bool>
  {
    if value.None? || limit.None? then Ok(false)
    else
      match FloatOf(value.value)
      case Fail(e) => Fail(e)
      case Ok(x) =>
        var result := x - limit.value;
        Ok(if c.ascending then result > 0.0 else result < 0.0)
  }

  function IsWarning(c: Check): Result<bool>
  {
    Evaluate(c, c.value, c.warningLimit)
  }

  function IsError(c: Check): Result<bool>
  {
    Evaluate(c, c.value, c.errorLimit)
  }

  /** The value lies strictly beyond the limit in the check's direction. */
  predicate Beyond(ascending: bool, x: real, limit: real)
  {
    if ascending then x > limit else x < limit
  }

  /** A limit fires exactly when the value and the limit are both present,
      the value reads as a number, and that number is strictly beyond the
      limit; it raises exactly when the number cannot be read. */
  lemma FiringRule(c: Check, value: Option<Value>, limit: Option<real>)
    ensures Evaluate(c, value, limit) == Ok(true) <==>
      value.Some? && limit.Some? && FloatOf(value.value).Ok?
      && Beyond(c.ascending, FloatOf(value.value).value, limit.value)
    ensures Evaluate(c, value, limit).Fail? <==>
      value.Some? && limit.Some? && FloatOf(value.value).Fail?
  {
  }

  /** A value equal to the limit never fires, in either direction. */
  lemma EqualityNeverFires(c: Check, v: Value, x: real)
    requires FloatOf(v) == Ok(x)
    ensures Evaluate(c, Some(v), Some(x)) == Ok(false)
  {
  }

  /** A check without a value is neither a warning nor an error, whatever
      its limits; a check without a limit never fires on that limit. */
  lemma AbsentNeverFires(c: Check)
    ensures c.value.None? ==> IsWarning(c) == Ok(false) && IsError(c) == Ok(false)
    ensures c.warningLimit.None? ==> IsWarning(c) == Ok(false)
    ensures c.errorLimit.None? ==> IsError(c) == Ok(false)
  {
  }

  /** For a numeric value the two directions are mirror images: at most one
      fires, and neither does exactly at the limit. */
  lemma DirectionsMirror(c: Check, v: Value, limit: real)
    requires v.IntV? || v.RealV?
    ensures Evaluate(c.(ascending := true), Some(v), Some(limit)).Ok?
    ensures Evaluate(c.(ascending := false), Some(v), Some(limit)).Ok?
    ensures !(Evaluate(c.(ascending := true), Some(v), Some(limit)).value
              && Evaluate(c.(ascending := false), Some(v), Some(limit)).value)
    ensures (!Evaluate(c.(ascending := true), Some(v), Some(limit)).value
             && !Evaluate(c.(ascending := false), Some(v), Some(limit)).value)
            <==> FloatOf(v) == Ok(limit)
  {
  }
}
