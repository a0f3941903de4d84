/** The Python values the template tags see: a field's value, widget attributes and choices. */
module PyValues {
  datatype PyValue =
    | PyNone
    | PyBool(b: bool)
    | PyInt(i: int)
    | PyStr(s: string)
    | PyList(items: seq<PyValue>)
    | PyDict(entries: seq<(PyValue, PyValue)>)
      /** A `ModelChoiceIteratorValue`: a model choice wrapping its primary-key value. */
    | PyChoiceValue(value: PyValue)

  /** Python truth value: `None`, `False`, zero and empty containers are false; other objects are true. */
  predicate PyTruthy(v: PyValue) {
    match v
    case PyNone => false
    case PyBool(b) => b
    case PyInt(i) => i != 0
    case PyStr(s) => s != ""
    case PyList(items) => items != []
    case PyDict(entries) => entries != []
    case PyChoiceValue(_) => true
  }
}
