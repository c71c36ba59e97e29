/** The Python values that the dictionaries of the model hold, and `isinstance` on them. */
module PyValues {

  /** A field value of a schema-less record: a string, an integer, a boolean,
      or a `datetime` stamp (kept opaque as the integer the caller supplies). */
  datatype Value = Str(s: string) | Int(i: int) | Bool(b: bool) | Stamp(t: int)

  /** The classes a schema may require of a field. */
  datatype PyType = StrType | IntType | BoolType

  /** Python's `isinstance(v, t)`. `bool` is a subclass of `int`, so a boolean is an instance of `int`. */
  predicate IsInstance(v: Value, t: PyType)
  {
    match t
    case StrType => v.Str?
    case IntType => v.Int? || v.Bool?
    case BoolType => v.Bool?
  }

  /** The integer a boolean stands for in arithmetic and comparisons. */
  function BoolInt(b: bool): int
  {
    if b then 1 else 0
  }

  /** Python's `==` on values: equal values, or a boolean and the integer it stands for
      (`True == 1`, `False == 0`). */
  predicate PyEq(a: Value, b: Value)
  {
    a == b || (a.Bool? && b.Int? && b.i == BoolInt(a.b)) || (a.Int? && b.Bool? && a.i == BoolInt(b.b))
  }

  /** The dictionary key a value stands for. Python hashes and compares `True` and `False`
      as 1 and 0, so they find the same dictionary entry as those integers. */
  function Key(v: Value): (k: Value)
    ensures !k.Bool? && PyEq(v, k)
    ensures !v.Bool? ==> k == v
  {
    if v.Bool? then Int(BoolInt(v.b)) else v
  }

  /** Two values find the same dictionary entry exactly when Python's `==` holds between them. */
  lemma KeySameEntry(a: Value, b: Value)
    ensures Key(a) == Key(b) <==> PyEq(a, b)
  {
  }

  /** Python's `dict` with string keys and heterogeneous values. */
  type Dict = map<string, Value>
}
