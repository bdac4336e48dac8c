/** A decoded JSON value, JavaScript/Python truthiness over it, and the
    backend's `IsValidJSON` check (backend/utils/verify.js). */
module Json {
  import opened Common
  import opened Dict
  import opened Decimal

  datatype Json =
    | Null
    | Bool(b: bool)
    | Num(r: real)
    | Str(s: string)
    | Arr(items: seq<Json>)
    | Obj(fields: Dict<Json>)

  /** JavaScript `Number(x)` (the coercion arithmetic applies) of a decoded value:
      `null` is 0, booleans are 0 and 1, a number is itself, and a string is read as an
      integer text. None stands for NaN, which an object gives, and for the strings and
      arrays outside that subset. */
  function JsNumber(j: Json): (r: Option<real>)
    ensures j.Num? ==> r == Some(j.r)
    ensures j.Obj? ==> r.None?
  {
    match j
    case Null => Some(0.0)
    case Bool(b) => Some(if b then 1.0 else 0.0)
    case Num(x) => Some(x)
    case Str(s) => if JsIntText(s).Some? then Some(JsIntText(s).value as real) else None
    case _ => None
  }

  /** `Number(String(n))` is `n`. */
  lemma JsNumberOfText(n: nat)
    ensures JsNumber(Str(NatToString(n))) == Some(n as real)
  {
    JsIntTextOfDigits(n);
  }

  /** JavaScript truthiness (`if (x)`). */
  predicate Truthy(j: Json) {
    match j
    case Null => false
    case Bool(b) => b
    case Num(r) => r != 0.0
    case Str(s) => s != ""
    case _ => true
  }

  /** Python truthiness of a value produced by `json.loads`. */
  predicate PyTruthy(j: Json) {
    match j
    case Null => false
    case Bool(b) => b
    case Num(r) => r != 0.0
    case Str(s) => s != ""
    case Arr(items) => items != []
    case Obj(f) => f.keys != []
  }

  /** `typeof x === 'object'` for a non-null value: arrays and objects. */
  predicate IsContainer(j: Json) {
    j.Arr? || j.Obj?
  }

  /** A JavaScript value handed to `IsValidJSON`: either `undefined` or a JSON value
      (a string among them, which is parsed rather than re-serialised). */
  datatype Raw = Undefined | Value(v: Json)

  /** `IsValidJSON(obj)`. A string is parsed with `parse` (None when `JSON.parse` throws);
      any other value goes through `JSON.stringify` and back, which returns it unchanged;
      `undefined` stringifies to `undefined`, on which `JSON.parse` throws. The result is
      the decoded value when it is a non-null object or an array, and null (None) otherwise. */
  function IsValidJson(obj: Raw, parse: string -> Option<Json>): (r: Option<Json>)
    ensures r.Some? ==> IsContainer(r.value)
    ensures obj.Undefined? ==> r.None?
    ensures obj.Value? && !obj.v.Str? ==> (r.Some? <==> IsContainer(obj.v)) && (r.Some? ==> r.value == obj.v)
    ensures obj.Value? && obj.v.Str? ==>
      (r.Some? <==> parse(obj.v.s).Some? && IsContainer(parse(obj.v.s).value))
    ensures obj.Value? && obj.v.Str? && r.Some? ==> r == parse(obj.v.s)
  {
    match obj
    case Undefined => None
    case Value(v) =>
      var decoded := if v.Str? then parse(v.s) else Some(v);
      if decoded.Some? && IsContainer(decoded.value) then decoded else None
  }

  /** Checking an already accepted value again accepts it unchanged. */
  lemma IsValidJsonIdempotent(obj: Raw, parse: string -> Option<Json>)
    requires IsValidJson(obj, parse).Some?
    ensures IsValidJson(Value(IsValidJson(obj, parse).value), parse) == IsValidJson(obj, parse)
  {
  }
}
