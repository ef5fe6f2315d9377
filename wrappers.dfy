/** Optional values and the fields of a parsed JSON request body. */
module Wrappers {

  datatype Option<+T> = None | Some(value: T)

  /** The outcome of a call that may throw: a value or the error's message. */
  datatype Result<+T> = Ok(value: T) | Err(message: string)

  /** One field of a JSON request body: left out, an explicit `null`, or a value. */
  datatype Field<+T> = Absent | Null | Given(value: T)

  /** JavaScript truthiness of a string field: present and not "". */
  predicate TextTruthy(f: Field<string>)
  {
    f.Given? && f.value != ""
  }

  /** JavaScript truthiness of a numeric field: present and not 0. */
  predicate NumTruthy(f: Field<int>)
  {
    f.Given? && f.value != 0
  }

  /** `x || null` on a string field: what is stored for an optional text column. */
  function TextOrNull(f: Field<string>): Option<string>
  {
    if TextTruthy(f) then Some(f.value) else None
  }

  /** `x || null` on a numeric field. */
  function NumOrNull(f: Field<int>): Option<int>
  {
    if NumTruthy(f) then Some(f.value) else None
  }

  /** A destructuring default `{ x = d }`. */
  function OrDefault<T>(f: Field<T>, d: T): T
  {
    if f.Given? then f.value else d
  }

  /** A number as `JSON.stringify` writes it: NaN (here `None`) becomes `null`. */
  function JsonNumber(n: Option<int>): Field<int>
  {
    if n.Some? then Given(n.value) else Null
  }
}
