/** Request validation (backend/utils/verify.js) and the response envelope
    (backend/utils/messages.js). */
module Verify {
  import opened Common
  import opened Dict
  import opened Json

  /** The parts of an Express request the validators read; `None` is `undefined`. */
  datatype Request = Request(body: Option<Json>, query: Option<Json>, params: Option<Json>)

  predicate Present(p: Option<Json>) {
    p.Some? && Truthy(p.value)
  }

  /** `getRequestedData`: the body, else the query, else the route parameters, else null.
      Each is taken only when truthy. */
  function RequestedData(req: Request): (r: Json)
    ensures Present(req.body) ==> r == req.body.value
    ensures !Present(req.body) && Present(req.query) ==> r == req.query.value
    ensures !Present(req.body) && !Present(req.query) && Present(req.params) ==> r == req.params.value
    ensures !Present(req.body) && !Present(req.query) && !Present(req.params) ==> r == Null
    ensures Truthy(r) <==> Present(req.body) || Present(req.query) || Present(req.params)
  {
    if Present(req.body) then req.body.value
    else if Present(req.query) then req.query.value
    else if Present(req.params) then req.params.value
    else Null
  }

  /** `Object.keys(x).length` for a truthy value: an object's own keys, an array's or a
      string's indices, and none for numbers and booleans. */
  function KeyCount(j: Json): (r: nat)
    ensures j.Obj? ==> r == |j.fields.keys|
    ensures j.Arr? ==> r == |j.items|
    ensures j.Str? ==> r == |j.s|
    ensures j.Null? || j.Bool? || j.Num? ==> r == 0
  {
    match j
    case Obj(f) => |f.keys|
    case Arr(items) => |items|
    case Str(s) => |s|
    case _ => 0
  }

  /** `{error, data}` as built by `BasicVerificationOfRequest`. */
  datatype Verdict = Verdict(error: Option<string>, data: Json)

  const NoDataError := "Cannot handle a request or JSON object is an empty."
  const KeyCountError := "JSON object does not contain correct number of properties."

  /** `BasicVerificationOfRequest(request, json_keys)`. The `IsValidJSON(...) === false`
      test never holds (that function returns an object or null), so it is not a branch. */
  function BasicVerificationOfRequest(req: Request, jsonKeys: seq<string>): (r: Verdict)
    ensures r.error.None? <==> Truthy(RequestedData(req)) && KeyCount(RequestedData(req)) == |jsonKeys|
    ensures r.error.None? ==> r.data == RequestedData(req)
    ensures r.error.Some? ==> r.data == Null
    ensures !Truthy(RequestedData(req)) ==> r.error == Some(NoDataError)
    ensures Truthy(RequestedData(req)) && KeyCount(RequestedData(req)) != |jsonKeys| ==> r.error == Some(KeyCountError)
  {
    var data := RequestedData(req);
    if !Truthy(data) then Verdict(Some(NoDataError), Null)
    else if KeyCount(data) != |jsonKeys| then Verdict(Some(KeyCountError), Null)
    else Verdict(None, data)
  }

  /** A body with the expected keys passes no matter what the query holds. */
  lemma BodyWins(body: Dict<Json>, query: Option<Json>, params: Option<Json>, jsonKeys: seq<string>)
    requires |body.keys| == |jsonKeys|
    ensures BasicVerificationOfRequest(Request(Some(Obj(body)), query, params), jsonKeys) == Verdict(None, Obj(body))
  {
  }

  /** `IsEmptyObj`: no own keys. */
  predicate IsEmptyObj(j: Json) {
    KeyCount(j) == 0
  }

  lemma IsEmptyObjOfObject(f: Dict<Json>)
    ensures IsEmptyObj(Obj(f)) <==> f.keys == []
  {
  }

  /** `getResponseObj(status_, message, data = null)`. */
  datatype Response = Response(status: string, message: string, data: Json)

  function ResponseObj(status: string, message: string, data: Option<Json>): (r: Response)
    ensures r.status == status && r.message == message
    ensures data.Some? ==> r.data == data.value
    ensures data.None? ==> r.data == Null
  {
    Response(status, message, data.GetOr(Null))
  }
}
