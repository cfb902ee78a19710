/** A spreadsheet cell or JSON scalar as the Python scripts see it, with the
    built-ins they apply to it: `str()`, `int()`, truthiness and `pd.isna()`. */
module PyValue {
  import opened Common
  import opened PyText

  /** A float is kept as its exact value together with the text `str()` prints for it. */
  datatype Value =
    | Null
    | NaN
    | Bool(b: bool)
    | Int(i: int)
    | Float(f: real, repr: string)
    | Str(s: string)

  datatype PyError = ValueError | TypeError | KeyError | IndexError

  /** `pd.isna(v)` for a scalar: None and NaN. */
  predicate IsNa(v: Value) {
    v.Null? || v.NaN?
  }

  /** `bool(v)`: a pandas NaN is truthy; every falsy value that `int()`
      accepts is zero. */
  predicate Truthy(v: Value) {
    match v
    case Null => false
    case NaN => true
    case Bool(b) => b
    case Int(i) => i != 0
    case Float(f, _) => f != 0.0
    case Str(s) => s != []
  }

  /** `str(v)`, also what an f-string prints for `{v}`. */
  function PyStr(v: Value): (r: string)
    ensures v.Str? ==> r == v.s
    ensures v.Int? ==> r == IntToString(v.i)
    ensures v.Float? ==> r == v.repr
  {
    match v
    case Null => "None"
    case NaN => "nan"
    case Bool(b) => if b then "True" else "False"
    case Int(i) => IntToString(i)
    case Float(_, repr) => repr
    case Str(s) => s
  }

  /** `int(str(i))` gives `i` back, from the text and from a string value. */
  lemma PyStrIntRoundTrip(v: Value)
    requires v.Int?
    ensures ParseInt(PyStr(v)) == Some(v.i)
    ensures PyInt(Str(PyStr(v))) == Success(v.i)
  {
    ParseIntToString(v.i);
  }

  /** `int(f)` for a float: rounds toward zero. */
  function Truncate(f: real): (n: int)
    ensures n as real <= f < n as real + 1.0 || n as real - 1.0 < f <= n as real
    ensures f >= 0.0 ==> 0 <= n
    ensures f <= 0.0 ==> n <= 0
  {
    if f >= 0.0 then f.Floor else -((-f).Floor)
  }

  /** A missing value is falsy unless it is NaN, and a falsy value that
      `int()` accepts is 0. */
  lemma FalsyValues(v: Value)
    ensures IsNa(v) ==> (Truthy(v) <==> v.NaN?)
    ensures !Truthy(v) && PyInt(v).Success? ==> PyInt(v).value == 0
  {
  }

  /** `int(v)`; Failure where Python raises. */
  function PyInt(v: Value): (r: Result<int, PyError>)
    ensures r.Success? <==> !IsNa(v) && (v.Str? ==> ParseInt(v.s).Some?)
    ensures v.Int? ==> r == Success(v.i)
    ensures v.Str? && r.Success? ==> r.value == ParseInt(v.s).value
    ensures v.Float? ==> r == Success(Truncate(v.f))
    ensures v.Float? && IsIntegral(v.f) ==> r == Success(v.f.Floor)
  {
    match v
    case Null => Failure(TypeError)
    case NaN => Failure(ValueError)
    case Bool(b) => Success(if b then 1 else 0)
    case Int(i) => Success(i)
    case Float(f, _) => Success(Truncate(f))
    case Str(s) =>
      match ParseInt(s)
      case Some(n) => Success(n)
      case None => Failure(ValueError)
  }

  /** A spreadsheet row or JSON object: column name to value. */
  type Record = map<string, Value>

  /** `row.get(key, default)` */
  function GetOr(row: Record, key: string, default: Value): (v: Value)
    ensures key in row ==> v == row[key]
    ensures key !in row ==> v == default
  {
    if key in row then row[key] else default
  }

  /** `float.is_integer()` */
  predicate IsIntegral(f: real) {
    f.Floor as real == f
  }
}
