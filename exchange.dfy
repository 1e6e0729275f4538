/**
 * What happens after a request is built: it is handed to the transport
 * (`execute`, which marshals it and posts it), and the reply's envelope is
 * decoded. The transport is a parameter; the model records which requests
 * were handed to it, so "refused before sending" is a statement about that
 * record.
 */
module Exchange {
  import opened Wrappers
  import opened Vyos

  /**
   * A JSON value as Go's decoder leaves it in an `any`: a number is the
   * `float64` it was rounded to (kept as its IEEE 754 bits), and an object is
   * a `map[string]any`, so member order is gone and a repeated key keeps its
   * last value.
   */
  datatype Value =
    | Null
    | Bool(b: bool)
    | Number(float64Bits: bv64)
    | Str(s: string)
    | Array(elements: seq<Value>)
    | Object(members: map<string, Value>)

  /** The reply envelope `{success, error, data}`; fields missing from the JSON are false or null. */
  datatype Envelope = Envelope(success: bool, error: Value, data: Value)

  /**
   * What the transport gives back: a failure of its own (network error,
   * status outside 200-299, a body that is not an envelope), or an envelope.
   */
  datatype Reply = Failed(cause: string) | Delivered(envelope: Envelope)

  /** The errors an operation returns. */
  datatype Error =
    | Refused(reason: Refusal)
    | TransportFailure(cause: string)
    | RemoteFailure(payload: Value)

  /** The requests handed to the transport during one call, and the call's result. */
  datatype Trace<T> = Trace(sent: seq<Request>, result: T)

  /** decodeResp: an envelope without `success` is an error carrying the envelope's `error` field. */
  function DecodeResp(env: Envelope): (r: Outcome<Error>)
    ensures r.Fail? <==> !env.success
    ensures r.Fail? ==> r.error == RemoteFailure(env.error)
  {
    if !env.success then Fail(RemoteFailure(env.error)) else Pass
  }

  /**
   * The common tail of every operation but ShowConfiguration: a refused
   * request returns its refusal and sends nothing; an accepted one is sent
   * once, a transport failure is returned as is, and otherwise the envelope
   * is decoded.
   */
  function Call(built: Result<Request, Refusal>, send: Request -> Reply): (t: Trace<Outcome<Error>>)
    ensures t.sent == (if built.Success? then [built.value] else [])
    ensures built.Failure? ==> t.result == Fail(Refused(built.error))
    ensures t.result.Pass? <==>
      built.Success? && send(built.value).Delivered? && send(built.value).envelope.success
    ensures built.Success? && send(built.value).Failed? ==>
      t.result == Fail(TransportFailure(send(built.value).cause))
    ensures built.Success? && send(built.value).Delivered? && !send(built.value).envelope.success ==>
      t.result == Fail(RemoteFailure(send(built.value).envelope.error))
  {
    match built
    case Failure(reason) => Trace([], Fail(Refused(reason)))
    case Success(request) =>
      match send(request)
      case Failed(cause) => Trace([request], Fail(TransportFailure(cause)))
      case Delivered(env) => Trace([request], DecodeResp(env))
  }

  /**
   * ShowConfiguration: sends its query once and returns the envelope's `data`
   * when `success` holds, and the envelope's `error` otherwise.
   */
  function ShowConfigurationCall(send: Request -> Reply): (t: Trace<Result<Value, Error>>)
    ensures t.sent == [ShowConfiguration()]
    ensures t.result.Success? <==>
      send(ShowConfiguration()).Delivered? && send(ShowConfiguration()).envelope.success
    ensures t.result.Success? ==> t.result.value == send(ShowConfiguration()).envelope.data
    ensures send(ShowConfiguration()).Failed? ==>
      t.result == Failure(TransportFailure(send(ShowConfiguration()).cause))
    ensures send(ShowConfiguration()).Delivered? && !send(ShowConfiguration()).envelope.success ==>
      t.result == Failure(RemoteFailure(send(ShowConfiguration()).envelope.error))
  {
    var request := ShowConfiguration();
    match send(request)
    case Failed(cause) => Trace([request], Failure(TransportFailure(cause)))
    case Delivered(env) =>
      if !env.success then Trace([request], Failure(RemoteFailure(env.error)))
      else Trace([request], Success(env.data))
  }
}
