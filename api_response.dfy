/**
 * The response envelope of backend/src/api-response/index.ts: every reply
 * of the API is `{success, data?, error?}`, built by `ok` or `fail`.
 */
module ApiResponse {
  import opened Wrappers
  import opened JsValue

  /** `ApiResponse<T>`; an absent optional field is `None`. */
  datatype Response = Response(success: bool, data: Option<Value>, error: Option<string>)

  /** `ok(data)`: `{success: true, data}`. */
  function Ok(data: Value): (r: Response)
    ensures r.success && r.data == Some(data) && r.error.None?
    ensures ToJson(r).fields.Keys == {"success", "data"}
  {
    Response(true, Some(data), None)
  }

  /** `fail(message)`: `{success: false, error: message}`. */
  function Fail(message: string): (r: Response)
    ensures !r.success && r.error == Some(message) && r.data.None?
    ensures ToJson(r).fields.Keys == {"success", "error"}
  {
    Response(false, None, Some(message))
  }

  /** The envelope as the JavaScript object sent to the client: absent fields have no key. */
  function ToJson(r: Response): (j: Value)
    ensures j.Obj? && "success" in j.fields && j.fields["success"] == Bool(r.success)
    ensures "data" in j.fields <==> r.data.Some?
    ensures "error" in j.fields <==> r.error.Some?
    ensures j.fields.Keys <= {"success", "data", "error"}
  {
    var withData := if r.data.Some? then map["data" := r.data.value] else map[];
    var withError := if r.error.Some? then map["error" := Str(r.error.value)] else map[];
    Obj(map["success" := Bool(r.success)] + withData + withError)
  }

  /** Reads an envelope back from a JavaScript object; `None` when it is not one. */
  function FromJson(j: Value): Option<Response> {
    if j.Obj? && "success" in j.fields && j.fields["success"].Bool?
       && j.fields.Keys <= {"success", "data", "error"}
       && ("error" in j.fields ==> j.fields["error"].Str?)
    then
      var data := if "data" in j.fields then Some(j.fields["data"]) else None;
      var error := if "error" in j.fields then Some(j.fields["error"].s) else None;
      Some(Response(j.fields["success"].b, data, error))
    else None
  }

  /** Every envelope is read back unchanged from the object sent for it. */
  lemma JsonRoundTrip(r: Response)
    ensures FromJson(ToJson(r)) == Some(r)
  {
  }

  /** `ok(d)` is a success carrying `d` and no error; its object has exactly the keys `success` and `data`. */
  lemma OkShape(d: Value)
    ensures Ok(d).success && Ok(d).data == Some(d) && Ok(d).error.None?
    ensures ToJson(Ok(d)).fields.Keys == {"success", "data"}
    ensures ToJson(Ok(d)).fields["data"] == d
  {
  }

  /** `fail(m)` is a failure carrying `m` and no data; its object has exactly the keys `success` and `error`. */
  lemma FailShape(m: string)
    ensures !Fail(m).success && Fail(m).error == Some(m) && Fail(m).data.None?
    ensures ToJson(Fail(m)).fields.Keys == {"success", "error"}
    ensures ToJson(Fail(m)).fields["error"] == Str(m)
  {
  }

  /** No success envelope is also a failure envelope. */
  lemma OkFailDisjoint(d: Value, m: string)
    ensures ToJson(Ok(d)) != ToJson(Fail(m))
  {
    assert ToJson(Ok(d)).fields["success"] != ToJson(Fail(m)).fields["success"];
  }
}
