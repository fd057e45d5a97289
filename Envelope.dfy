/**
 * What the client does with a response once it has one: read the body, decode it
 * as a JSON object and accept it only when its `stat` field is the string "ok".
 * JSON decoding and encoding are library calls and are taken as parameters.
 */
module Envelope {
  import opened Wrappers
  import opened JsonValue
  import RateLimit

  /** The decoded response object. */
  type Envelope = map<string, Json>

  /** `json.Unmarshal` of a body, None when the body is not JSON. */
  type Decoder = string -> Option<Json>

  /** `json.Marshal` of a decoded value. */
  type Encoder = Json -> string

  /** The ways a call fails, one per error return of `MakeCall`. */
  datatype CallError =
    | ConstructingRequest(cause: string)
    | PerformingRequest(cause: string)
    | ReadingBody(cause: string)
    | DecodingBody(body: string)
    | ApiFailure(serializedError: string)

  /** A response: its status code, its headers and its body, or the error reading the body gave. */
  datatype Response = Response(status: int, header: RateLimit.Header, body: Result<string, string>)

  /** A Go map lookup: a missing key reads as nil, the same value JSON null decodes to. */
  function Field(env: Envelope, key: string): Json {
    if key in env then env[key] else JNull
  }

  /**
   * Decoding into `map[string]interface{}`: an object fills the map, `null` leaves
   * it nil (an empty map) without error, and any other JSON value is an error.
   */
  function AsEnvelope(decoded: Option<Json>): Option<Envelope> {
    match decoded
    case Some(JObject(fields)) => Some(fields)
    case Some(JNull) => Some(map[])
    case _ => None
  }

  /** The `stat` check: the envelope itself when `stat` is the string "ok", else the encoded `error` field. */
  function CheckEnvelope(env: Envelope, marshal: Encoder): (r: Result<Envelope, CallError>)
    ensures r.Success? <==> "stat" in env && env["stat"] == JString("ok")
    ensures r.Success? ==> r.value == env
    ensures r.Failure? ==> r.error == ApiFailure(marshal(if "error" in env then env["error"] else JNull))
  {
    if Field(env, "stat") == JString("ok") then Success(env)
    else Failure(ApiFailure(marshal(Field(env, "error"))))
  }

  /** Read, decode and check a response (the code after the retry loop). */
  function HandleResponse(res: Response, decode: Decoder, marshal: Encoder): (r: Result<Envelope, CallError>)
    ensures res.body.Failure? ==> r == Failure(ReadingBody(res.body.error))
    ensures r.Success? ==>
      res.body.Success? && decode(res.body.value) == Some(JObject(r.value)) && "stat" in r.value && r.value["stat"] == JString("ok")
    ensures res.body.Success? && AsEnvelope(decode(res.body.value)).None? ==>
      r == Failure(DecodingBody(res.body.value))
    ensures res.body.Success? && AsEnvelope(decode(res.body.value)).Some? ==>
      var env := AsEnvelope(decode(res.body.value)).value;
      (r.Success? <==> "stat" in env && env["stat"] == JString("ok"))
      && (r.Success? ==> r.value == env)
      && (r.Failure? ==> r.error == ApiFailure(marshal(if "error" in env then env["error"] else JNull)))
  {
    match res.body
    case Failure(cause) => Failure(ReadingBody(cause))
    case Success(body) =>
      match AsEnvelope(decode(body))
      case None => Failure(DecodingBody(body))
      case Some(env) => CheckEnvelope(env, marshal)
  }

  /** Only `stat` decides: changing any other field keeps the verdict. */
  lemma OnlyStatDecides(env: Envelope, key: string, v: Json, marshal: Encoder)
    requires key != "stat"
    ensures CheckEnvelope(env[key := v], marshal).Success? == CheckEnvelope(env, marshal).Success?
  {
  }

  /** A `stat` that is anything but the string "ok" (another string, `true`, a number, null) is refused. */
  lemma OtherStatRefused(env: Envelope, v: Json, marshal: Encoder)
    requires v != JString("ok")
    ensures CheckEnvelope(env["stat" := v], marshal).Failure?
  {
  }

  /** A JSON `null` body decodes without error but is refused, reporting the error field as `null`. */
  lemma NullBodyRefused(res: Response, decode: Decoder, marshal: Encoder)
    requires res.body.Success? && decode(res.body.value) == Some(JNull)
    ensures HandleResponse(res, decode, marshal) == Failure(ApiFailure(marshal(JNull)))
  {
  }
}
