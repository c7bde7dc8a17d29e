/** Small value wrappers shared by every module of the model. */
module Wrappers {

  datatype Option<+T> = None | Some(value: T)

  datatype Result<+T, +E> = Ok(value: T) | Err(error: E)

  /** One key of a decoded JSON object: the key is missing, it is present
      with the value `null`, or it is present with a value. Python's
      `dict.setdefault` only fills `Absent`; `d.get(k) or default` also
      replaces `Null` and falsy values. */
  datatype Field<+T> = Absent | Null | Present(value: T)

  /** Python truthiness of a string-valued key: present and non-empty. */
  predicate TruthyString(f: Field<string>)
  {
    f.Present? && f.value != ""
  }
}
