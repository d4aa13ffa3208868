/**
 * `ApiResponseInterceptor.intercept`
 * (backend/src/api-response/api-response.interceptor.ts): a handler's
 * result is passed through when it already looks like an envelope, and is
 * wrapped with `ok` otherwise.
 */
module ApiResponseInterceptor {
  import Wrappers
  import opened JsValue
  import opened ApiResponse

  /** `data && typeof data === 'object' && 'success' in data` */
  predicate IsEnvelopeLike(data: Value) {
    Truthy(data) && IsObjectType(data) && HasKey(data, "success")
  }

  /**
   * The mapping applied to each handler result. `statusCode` is the
   * response's status code (`res?.statusCode`), read but not used, because
   * `ok` takes one parameter.
   */
  function Intercept(data: Value, statusCode: Wrappers.Option<int>): (r: Value)
    ensures IsEnvelopeLike(data) ==> r == data
    ensures !IsEnvelopeLike(data) ==> FromJson(r) == Wrappers.Some(Ok(data))
  {
    if IsEnvelopeLike(data) then data
    else
      var status := if statusCode.Some? then statusCode.value else 200;
      JsonRoundTrip(Ok(data));
      ToJson(Ok(data))
  }

  /** Whatever the handler returned, the client receives an object with a `success` key. */
  lemma AlwaysEnvelopeLike(data: Value, statusCode: Wrappers.Option<int>)
    ensures IsEnvelopeLike(Intercept(data, statusCode))
  {
  }

  /** Falsy results (`null`, `undefined`, `0`, `''`, `false`) are wrapped, not passed through. */
  lemma FalsyIsWrapped(data: Value, statusCode: Wrappers.Option<int>)
    requires !Truthy(data)
    ensures Intercept(data, statusCode) == ToJson(Ok(data))
  {
  }

  /** Wrapping is idempotent: the interceptor leaves its own output unchanged. */
  lemma {:induction false} Idempotent(data: Value, s1: Wrappers.Option<int>, s2: Wrappers.Option<int>)
    ensures Intercept(Intercept(data, s1), s2) == Intercept(data, s1)
  {
    AlwaysEnvelopeLike(data, s1);
  }

  /** The status code has no influence on the result. */
  lemma StatusIgnored(data: Value, s1: Wrappers.Option<int>, s2: Wrappers.Option<int>)
    ensures Intercept(data, s1) == Intercept(data, s2)
  {
  }
}
