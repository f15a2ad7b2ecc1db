/** Decoded JSON payloads as the Python providers see them after
    `response.json()`, with the handful of Python operations the providers
    apply to them: truthiness, `str()`, `dict.get`, `or` chains, `in` and
    subscripting, and `Decimal(str(x))`. */
module Payload {
  import opened Wrappers
  import Text
  import opened Errors

  /** A number keeps the text Python's `str()` gives it (`2500.5`, `1e-05`,
      `7`). */
  datatype Json =
    | Null
    | Bool(b: bool)
    | Num(repr: string)
    | Str(s: string)
    | Arr(elems: seq<Json>)
    | Obj(fields: map<string, Json>)

  /** Python truthiness: `None`, `False`, zero, `""`, `[]` and `{}` are
      false. A number that does not parse (`nan`) is true. */
  predicate Truthy(j: Json) {
    match j
    case Null => false
    case Bool(b) => b
    case Num(r) => Text.ParseDecimal(r) != Some(0.0)
    case Str(s) => |s| > 0
    case Arr(e) => |e| > 0
    case Obj(f) => |f| > 0
  }

  /** `str(x)`. Lists and dicts render as their brackets only. */
  function PyStr(j: Json): (r: string)
    ensures j.Str? ==> r == j.s
    ensures j.Num? ==> r == j.repr
    ensures j.Arr? ==> |r| > 0 && r[0] == '['
    ensures j.Obj? ==> |r| > 0 && r[0] == '{'
  {
    match j
    case Null => "None"
    case Bool(b) => if b then "True" else "False"
    case Num(r) => r
    case Str(s) => s
    case Arr(_) => "[]"
    case Obj(_) => "{}"
  }

  /** `d.get(k)`: an absent key and a JSON `null` both read as `None`. */
  function Get(fields: map<string, Json>, k: string): (r: Json)
    ensures r != Null <==> k in fields && fields[k] != Null
    ensures r != Null ==> r == fields[k]
  {
    if k in fields then fields[k] else Null
  }

  /** `x0 or x1 or ... or xn`: the first truthy operand, else the last one. */
  function Or(xs: seq<Json>): (r: Json)
    requires |xs| > 0
    ensures r in xs
    ensures Truthy(r) <==> exists i :: 0 <= i < |xs| && Truthy(xs[i])
    ensures !Truthy(r) ==> r == xs[|xs| - 1]
  {
    if |xs| == 1 || Truthy(xs[0]) then xs[0] else Or(xs[1..])
  }

  /** The operand an `or` chain yields is its first truthy one. */
  lemma {:induction false} OrFirstTruthy(xs: seq<Json>, j: int)
    requires 0 <= j < |xs| && Truthy(xs[j])
    requires forall k :: 0 <= k < j ==> !Truthy(xs[k])
    ensures Or(xs) == xs[j]
  {
    if j > 0 {
      assert forall k :: 0 <= k < j - 1 ==> xs[1..][k] == xs[k + 1];
      OrFirstTruthy(xs[1..], j - 1);
    }
  }

  /** An `or` chain is `None` exactly when no operand is truthy and the last
      one is `None`. */
  lemma OrIsNone(xs: seq<Json>)
    requires |xs| > 0
    ensures Or(xs) == Null <==> (forall i :: 0 <= i < |xs| ==> !Truthy(xs[i])) && xs[|xs| - 1] == Null
  {
  }

  /** `j.get(k, default)` on a value that must be a dict. */
  function GetOr(j: Json, k: string, default: Json): (r: Result<Json, Error>)
    ensures !j.Obj? ==> r == Failure(Malformed)
    ensures j.Obj? && k in j.fields ==> r == Success(j.fields[k])
    ensures j.Obj? && k !in j.fields ==> r == Success(default)
  {
    match j
    case Obj(f) => Success(if k in f then f[k] else default)
    case _ => Failure(Malformed)
  }

  /** `k in c` for a string `k`: a key of a dict, an element of a list, a
      substring of a string; a `TypeError` for anything else. */
  function Has(c: Json, k: string): (r: Result<bool, Error>)
    ensures c.Obj? ==> r == Success(k in c.fields)
    ensures c.Arr? ==> r == Success(Str(k) in c.elems)
    ensures c.Str? ==> r == Success(Text.Contains(c.s, k))
    ensures (c.Null? || c.Bool? || c.Num?) ==> r == Failure(Malformed)
  {
    match c
    case Obj(f) => Success(k in f)
    case Arr(e) => Success(Str(k) in e)
    case Str(s) => Success(Text.Contains(s, k))
    case _ => Failure(Malformed)
  }

  /** `c[k]` for a string `k`: only a dict can be subscripted by a string. */
  function Index(c: Json, k: string): (r: Result<Json, Error>)
    ensures r.Success? <==> c.Obj? && k in c.fields
    ensures r.Success? ==> r.value == c.fields[k]
    ensures c.Obj? && k !in c.fields ==> r == Failure(MissingKey(k))
    ensures !c.Obj? ==> r == Failure(Malformed)
  {
    match c
    case Obj(f) => if k in f then Success(f[k]) else Failure(MissingKey(k))
    case _ => Failure(Malformed)
  }

  /** `Decimal(str(x))`. */
  function DecimalOf(x: Json): (r: Result<real, Error>)
    ensures r.Success? <==> Text.ParseDecimal(PyStr(x)).Some?
    ensures r.Success? ==> r.value == Text.ParseDecimal(PyStr(x)).value
    ensures r.Failure? ==> r.error == InvalidDecimal(PyStr(x))
  {
    match Text.ParseDecimal(PyStr(x))
    case Some(v) => Success(v)
    case None => Failure(InvalidDecimal(PyStr(x)))
  }

  /** `g` and `x` multiply to one. */
  predicate Inverts(g: real, x: real) {
    g * x == 1.0
  }

  /** `Decimal("1") / x`. */
  function Reciprocal(x: real): (r: Result<real, Error>)
    ensures x == 0.0 <==> r == Failure(DivisionByZero)
    ensures r.Success? ==> Inverts(r.value, x)
  {
    if x == 0.0 then Failure(DivisionByZero) else Success(1.0 / x)
  }
}
