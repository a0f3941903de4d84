/** The `js_boolean` template filter of `apps/base/templatetags/utils.py`. */
module TemplateUtils {
  import opened PyValues

  /**
   * Writes a Python value as a JavaScript boolean literal. The test is an
   * identity test against `True`, so only the boolean `True` itself gives
   * `"true"`; every other value, truthy or not, gives `"false"`.
   */
  function JsBoolean(val: PyValue): (r: string)
    ensures r == "true" || r == "false"
    ensures r == "true" <==> val == PyBool(true)
  {
    if val == PyBool(true) then "true" else "false"
  }

  /** Truthy values other than `True` still give `"false"`. */
  lemma TruthyIsNotEnough(val: PyValue)
    requires PyTruthy(val) && !val.PyBool?
    ensures JsBoolean(val) == "false"
  {
  }

  /** Where the value is a boolean, the filter agrees with its truth value. */
  lemma BooleansAgreeWithTruth(b: bool)
    ensures JsBoolean(PyBool(b)) == "true" <==> PyTruthy(PyBool(b))
  {
  }
}
