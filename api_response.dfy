/**
 * The JSON response bodies every backend route sends: `{success, message}` plus
 * either the fields of a data object or an `errorCode`, with an HTTP status.
 */
module ApiResponse {
  import opened Js
  import opened Text

  /** What `res.status(statusCode).json(body)` sends. */
  datatype Response = Response(status: int, body: map<string, Value>) {
    /** A property of the body as the client reads it: `undefined` when absent. */
    function Field(key: string): Value {
      if key in body then body[key] else Undefined
    }
  }

  const SERVER_ERROR_MESSAGE: string := "Server error occurred"
  const VALIDATION_ERROR: string := "VALIDATION_ERROR"

  /** `Object.assign` copying the indexed properties `"0"`, `"1"`, … of a string or an array. */
  function AssignIndexed(target: map<string, Value>, vals: seq<Value>, from: nat): (r: map<string, Value>)
    decreases |vals| - from
  {
    if from >= |vals| then target
    else AssignIndexed(target[NatToDecimal(from) := vals[from]], vals, from + 1)
  }

  /** The own enumerable properties of a string: one single-character string per index. */
  function Chars(s: string): seq<Value> {
    seq(|s|, i requires 0 <= i < |s| => Str([s[i]]))
  }

  /**
   * `Object.assign(target, data)`: later sources win, so a field of `data` replaces the
   * field of the same name; numbers and booleans have no own enumerable properties.
   */
  function Assign(target: map<string, Value>, data: Value): map<string, Value> {
    match data
    case Obj(fields) => target + fields
    case Str(s) => AssignIndexed(target, Chars(s), 0)
    case Arr(items) => AssignIndexed(target, items, 0)
    case _ => target
  }

  /** `success(res, message = 'Success', data = null, statusCode = 200)`. */
  function Success(message: Value := Undefined, data: Value := Null, statusCode: int := 200): (r: Response)
    ensures r.status == statusCode
    ensures !Truthy(data) ==> r.body.Keys == {"success", "message"}
    ensures !Truthy(data) ==> r.body["success"] == Bool(true) && r.body["message"] == OrDefault(message, "Success")
  {
    var response := map["success" := Bool(true), "message" := OrDefault(message, "Success")];
    Response(statusCode, if Truthy(data) then Assign(response, data) else response)
  }

  /** `error(res, message = 'Error', statusCode = 400, errorCode = null)`. */
  function Error(message: Value := Undefined, statusCode: int := 400, errorCode: Value := Null): (r: Response)
    ensures r.status == statusCode
    ensures "errorCode" in r.body <==> Truthy(errorCode)
    ensures Truthy(errorCode) ==> r.body["errorCode"] == errorCode
    ensures r.body.Keys - {"errorCode"} == {"success", "message"}
    ensures r.body["success"] == Bool(false) && r.body["message"] == OrDefault(message, "Error")
  {
    var response := map["success" := Bool(false), "message" := OrDefault(message, "Error")];
    Response(statusCode, if Truthy(errorCode) then response["errorCode" := errorCode] else response)
  }

  /** `serverError(res, err)`: the error object is only logged. */
  function ServerError(err: Value): (r: Response)
    ensures r.status == 500
    ensures r.body.Keys == {"success", "message"}
    ensures r.body["success"] == Bool(false) && r.body["message"] == Str(SERVER_ERROR_MESSAGE)
  {
    Response(500, map["success" := Bool(false), "message" := Str(SERVER_ERROR_MESSAGE)])
  }

  /** `validationError(res, message = 'Validation failed')`. */
  function ValidationError(message: Value := Undefined): (r: Response)
    ensures r.status == 400
    ensures r.body.Keys == {"success", "message", "errorCode"}
    ensures r.body["errorCode"] == Str(VALIDATION_ERROR)
    ensures r.body["message"] == OrDefault(message, "Validation failed")
  {
    Error(OrDefault(message, "Validation failed"), 400, Str(VALIDATION_ERROR))
  }

  /** A validation error is an ordinary error with status 400 and code `VALIDATION_ERROR`. */
  lemma ValidationErrorIsError(message: Value)
    requires message != Undefined
    ensures ValidationError(message) == Error(message, 400, Str(VALIDATION_ERROR))
  {
  }

  /** The outcome of `serverError` does not depend on the error it is given. */
  lemma ServerErrorIgnoresErr(e1: Value, e2: Value)
    ensures ServerError(e1) == ServerError(e2)
  {
  }

  /**
   * The data object is merged after `success` and `message`: every data field appears
   * unchanged, and `success`/`message` survive only where the data has no field of that name.
   */
  lemma SuccessMergesData(message: Value, fields: map<string, Value>, statusCode: int)
    ensures var r := Success(message, Obj(fields), statusCode);
      r.body.Keys == fields.Keys + {"success", "message"} &&
      (forall k :: k in fields ==> r.body[k] == fields[k]) &&
      ("success" !in fields ==> r.body["success"] == Bool(true)) &&
      ("message" !in fields ==> r.body["message"] == OrDefault(message, "Success"))
  {
  }

  /** Copying indexed properties only adds or replaces keys: nothing already present disappears. */
  lemma {:induction false} AssignIndexedKeeps(target: map<string, Value>, vals: seq<Value>, from: nat)
    ensures target.Keys <= AssignIndexed(target, vals, from).Keys
    decreases |vals| - from
  {
    if from < |vals| {
      AssignIndexedKeeps(target[NatToDecimal(from) := vals[from]], vals, from + 1);
    }
  }

  /** Whatever the data, a success body carries `success` and `message` keys. */
  lemma SuccessHasEnvelope(message: Value, data: Value, statusCode: int)
    ensures "success" in Success(message, data, statusCode).body
    ensures "message" in Success(message, data, statusCode).body
  {
    var response := map["success" := Bool(true), "message" := OrDefault(message, "Success")];
    if data.Str? {
      AssignIndexedKeeps(response, Chars(data.s), 0);
    } else if data.Arr? {
      AssignIndexedKeeps(response, data.items, 0);
    }
  }
}
