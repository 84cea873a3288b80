/**
 JSON values as Python holds them after `json.loads`, together with the three
 pieces of Python semantics the translator leans on: truthiness, the `or`
 operator and `dict.get` with its `None` default.
 */
module PyJson {

  /** A decoded JSON document: `None`, `bool`, a number (`int` or `float`),
      `str`, `list` or `dict` with string keys. */
  datatype Json =
    | JNull
    | JBool(b: bool)
    | JNum(n: real)
    | JStr(s: string)
    | JArr(items: seq<Json>)
    | JObj(fields: map<string, Json>)

  /** Python truthiness: `None`, `False`, zero and empty containers are false. */
  predicate Truthy(v: Json) {
    match v
    case JNull => false
    case JBool(b) => b
    case JNum(n) => n != 0.0
    case JStr(s) => |s| > 0
    case JArr(items) => |items| > 0
    case JObj(fields) => |fields| > 0
  }

  /** `d.get(key)`: the stored value, or `None` when the key is absent. */
  function Get(fields: map<string, Json>, key: string): Json
  {
    if key in fields then fields[key] else JNull
  }

  /** Python's `a or b`: `a` when it is truthy, `b` otherwise. */
  function Or(a: Json, b: Json): (r: Json) {
    if Truthy(a) then a else b
  }

  /** `v0 or v1 or ... or vn`, grouped to the left as Python parses it. The
      value is one of the operands, and it is truthy exactly when some
      operand is. */
  function OrChain(vals: seq<Json>): (r: Json)
    requires |vals| > 0
    ensures r in vals
    ensures Truthy(r) <==> exists i :: 0 <= i < |vals| && Truthy(vals[i])
    decreases |vals|
  {
    if |vals| == 1 then vals[0]
    else
      var prefix := vals[..|vals| - 1];
      var left := OrChain(prefix);
      assert forall i :: 0 <= i < |prefix| ==> prefix[i] == vals[i];
      Or(left, vals[|vals| - 1])
  }

  /** `i` is the position of the first truthy operand. */
  ghost predicate FirstTruthy(vals: seq<Json>, i: int) {
    && 0 <= i < |vals|
    && Truthy(vals[i])
    && forall j :: 0 <= j < i ==> !Truthy(vals[j])
  }

  /** The chain yields its first truthy operand. */
  lemma {:induction false} OrChainFirstTruthy(vals: seq<Json>, i: int)
    requires FirstTruthy(vals, i)
    ensures OrChain(vals) == vals[i]
    decreases |vals|
  {
    if |vals| > 1 {
      var prefix := vals[..|vals| - 1];
      if i < |vals| - 1 {
        assert FirstTruthy(prefix, i);
        OrChainFirstTruthy(prefix, i);
      } else {
        assert forall j :: 0 <= j < |prefix| ==> !Truthy(prefix[j]);
      }
    }
  }
}
