/** JavaScript values the model layer relies on: `undefined`, and the
    truthiness tests the source applies to strings and numbers. */
module JsValues {

  /** A value that may be `undefined` (None) or defined (Some). */
  datatype Option<+T> = None | Some(value: T)

  /** JavaScript truthiness of a string-valued field: `undefined` and `''`
      are falsy, every other string is truthy. */
  predicate IsTruthyString(s: Option<string>)
  {
    s.Some? && s.value != ""
  }

  /** JavaScript truthiness of a number-valued field: `undefined` and `0`
      are falsy (ids are integers here, so NaN does not arise). */
  predicate IsTruthyNumber(n: Option<int>)
  {
    n.Some? && n.value != 0
  }
}
