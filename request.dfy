/** `isPrettifyRequest`: the check that a language-service request is the plugin's own. */
module Request {

  /** A JavaScript value, as far as the check can tell values apart. Numbers are integers here
      (`NaN` is not part of this model); arrays are objects without a `meta` key. */
  datatype JsValue =
    | Undefined
    | Null
    | Bool(b: bool)
    | Num(n: int)
    | Str(s: string)
    | Func
    | Arr(elements: seq<JsValue>)
    | Obj(fields: map<string, JsValue>)

  const RequestMeta := "prettify-type-info-request"

  /** `!!value`. */
  predicate Truthy(v: JsValue)
  {
    match v
    case Undefined => false
    case Null => false
    case Bool(b) => b
    case Num(n) => n != 0
    case Str(s) => s != ""
    case _ => true
  }

  /** `typeof value`. */
  function TypeOf(v: JsValue): string
  {
    match v
    case Undefined => "undefined"
    case Null => "object"
    case Bool(_) => "boolean"
    case Num(_) => "number"
    case Str(_) => "string"
    case Func => "function"
    case Arr(_) => "object"
    case Obj(_) => "object"
  }

  /** `key in value`, for a value `typeof` calls an object. */
  predicate HasKey(v: JsValue, key: string)
  {
    v.Obj? && key in v.fields
  }

  /** `value[key]`. */
  function Get(v: JsValue, key: string): JsValue
  {
    if v.Obj? && key in v.fields then v.fields[key] else Undefined
  }

  /** The source's single expression, conjunct by conjunct and in its order. */
  predicate IsPrettifyRequest(request: JsValue)
  {
    Truthy(request) && TypeOf(request) == "object" && HasKey(request, "meta")
    && Get(request, "meta") == Str(RequestMeta)
  }

  /** A request is accepted exactly when it is an object whose `meta` is the plugin's marker. */
  lemma AcceptedIffMarked(request: JsValue)
    ensures IsPrettifyRequest(request)
            <==> request.Obj? && "meta" in request.fields && request.fields["meta"] == Str(RequestMeta)
  {
  }

  /** Falsy values and values of any other type are rejected, and so is an object without a
      `meta` key or with any other `meta`. */
  lemma RejectedCases(request: JsValue)
    ensures !Truthy(request) ==> !IsPrettifyRequest(request)
    ensures TypeOf(request) != "object" ==> !IsPrettifyRequest(request)
    ensures request.Obj? && "meta" !in request.fields ==> !IsPrettifyRequest(request)
    ensures request.Obj? && "meta" in request.fields && request.fields["meta"] != Str(RequestMeta)
            ==> !IsPrettifyRequest(request)
  {
  }
}
