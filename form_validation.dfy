/** The frontend's form validators. */
module FormValidation {
  import opened Wrappers
  import opened Js
  import opened Text

  const REQUIRED_SUFFIX: string := " mező kötelező"

  /**
   * `validators.required(value, fieldName)`: the error message for a falsy value or one whose
   * string form is only whitespace, `null` (here `None`) otherwise.
   */
  function Required(value: Value, fieldName: string): (r: Option<string>)
    ensures r.Some? <==> !Truthy(value) || AllSpace(ToStr(value))
    ensures r.Some? ==> r.value == fieldName + REQUIRED_SUFFIX
  {
    TrimEmptyIffAllSpace(ToStr(value));
    if !Truthy(value) || Trim(ToStr(value)) == "" then Some(fieldName + REQUIRED_SUFFIX) else None
  }

  /** Falsy values such as `0` and `''` are rejected even though they are present. */
  lemma RequiredRejectsFalsy(fieldName: string)
    ensures Required(Num(0), fieldName).Some? && Required(Str(""), fieldName).Some?
    ensures Required(Bool(false), fieldName).Some? && Required(Null, fieldName).Some?
  {
  }

  /** A string with one visible character is accepted whatever whitespace surrounds it. */
  lemma RequiredAcceptsPadded(w1: string, s: string, w2: string, fieldName: string)
    requires AllSpace(w1) && AllSpace(w2) && s != [] && !IsJsSpace(s[0])
    ensures Required(Str(w1 + s + w2), fieldName).None?
  {
    assert (w1 + s + w2)[|w1|] == s[0];
  }
}
