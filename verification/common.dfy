/** Small value types shared by every part of the model. */
module Common {

  /** Python's `Optional[T]`: `None` or a present value. */
  datatype Option<+T> = None | Some(value: T)

  /** A keyword argument of a constructor call: left out, or given with a value. */
  datatype Arg<+T> = Omitted | Given(value: T)

  /** The scalar Python values that flow into and out of the SQLite table:
      `None`, `str` and `int`. */
  datatype Value = Null | Text(text: string) | Int(number: int)

  /** Python's `dict.get(key, default)` on a map. */
  function Lookup<K, V>(m: map<K, V>, key: K, default: V): (r: V)
    ensures key in m ==> r == m[key]
    ensures key !in m ==> r == default
  {
    if key in m then m[key] else default
  }
}
