/**
 * Python values as request handling stores them in its metadata dictionaries,
 * with Python's truthiness, `a or b` and `dict.get`.
 */
module Values {

  datatype Option<+T> = None | Some(value: T)

  /**
   * A value held in a metadata dictionary or a parsed JSON object: `None`, a
   * string, an integer, or some other value (a float, boolean, list or object)
   * of which only its truthiness matters here.
   */
  datatype Val = Null | Str(s: string) | Int(n: int) | Other(truthy: bool)

  /** Python's `bool(v)`. */
  predicate Truthy(v: Val) {
    match v
    case Null => false
    case Str(s) => s != ""
    case Int(n) => n != 0
    case Other(t) => t
  }

  /** Python's `a or b`: the first operand when it is truthy, else the second. */
  function Or(a: Val, b: Val): Val {
    if Truthy(a) then a else b
  }

  /** A value that the source reads as either `None` or a string. */
  function OptStr(o: Option<string>): Val {
    match o
    case None => Null
    case Some(s) => Str(s)
  }

  type Dict = map<string, Val>

  /** `d.get(k)`: the stored value, or `None` when the key is absent. */
  function Get(d: Dict, k: string): Val {
    if k in d then d[k] else Null
  }
}
