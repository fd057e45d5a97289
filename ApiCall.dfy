/**
 * `MakeCall`: the retry loop, over a script of what each attempt meets.
 *
 * The network is abstract: `outcomes[i]` is what attempt i meets, which is either a
 * failure to construct the request, a transport failure or a response. A script
 * that runs out before the call returns leaves the call `Looping`.
 *
 * `Run` is the loop as written. In it, the `break` for a non-429 response leaves
 * only the `switch`, so the loop goes on and sends the request again. `Intended`
 * is the loop that stops at the first non-429 response and hands it to
 * `HandleResponse`.
 */
module ApiCall {
  import opened Wrappers
  import opened ApiRequest
  import opened Envelope
  import RateLimit

  const TooManyRequests: int := 429

  /** What one attempt meets. */
  datatype Outcome =
    | RequestError(cause: string)
    | TransportError(cause: string)
    | Reply(response: Response)

  /** Where the call stands: returned, panicked (empty Retry-After list), or still in its loop. */
  datatype Status = Returned(result: Result<Envelope, CallError>) | Panicked | Looping

  /** The requests sent, the waits taken after 429s, and the last response stored in `res`. */
  datatype Trace = Trace(status: Status, sent: seq<Request>, waits: seq<RateLimit.Duration>, res: Option<Response>)

  /** `t` preceded by earlier requests and waits. */
  function After(sent: seq<Request>, waits: seq<RateLimit.Duration>, t: Trace): Trace {
    t.(sent := sent + t.sent, waits := waits + t.waits)
  }

  lemma AfterAfter(sent: seq<Request>, waits: seq<RateLimit.Duration>,
                   sent': seq<Request>, waits': seq<RateLimit.Duration>, t: Trace)
    ensures After(sent, waits, After(sent', waits', t)) == After(sent + sent', waits + waits', t)
  {
  }

  /** An outcome that ends the loop as written. */
  predicate Stops(o: Outcome) {
    o.RequestError? || o.TransportError?
    || (o.Reply? && o.response.status == TooManyRequests && !RateLimit.Indexable(o.response.header))
  }

  /** A response other than 429. */
  predicate NonRetry(o: Outcome) {
    o.Reply? && o.response.status != TooManyRequests
  }

  /** The loop as written, from an attempt on, with `res` holding the last stored response. */
  function Run(req: Request, outcomes: seq<Outcome>, parse: RateLimit.DurationParser, res: Option<Response>): Trace
    decreases |outcomes|
  {
    if outcomes == [] then Trace(Looping, [], [], res)
    else match outcomes[0]
      case RequestError(cause) => Trace(Returned(Failure(ConstructingRequest(cause))), [], [], res)
      case TransportError(cause) => Trace(Returned(Failure(PerformingRequest(cause))), [req], [], res)
      case Reply(r) =>
        if r.status == TooManyRequests then
          match RateLimit.ChosenWait(r.header, parse)
          case None => Trace(Panicked, [req], [], res)
          case Some(w) => After([req], [w], Run(req, outcomes[1..], parse, res))
        else
          After([req], [], Run(req, outcomes[1..], parse, Some(r)))
  }

  /** `MakeCall` as written. */
  method MakeCall(client: ApiClient, endpoint: string, params: string,
                  outcomes: seq<Outcome>, parse: RateLimit.DurationParser)
    returns (status: Status, sent: seq<Request>, waits: seq<RateLimit.Duration>, res: Option<Response>)
    ensures Trace(status, sent, waits, res) == Run(CallRequest(client, endpoint, params), outcomes, parse, None)
    ensures !(status.Returned? && status.result.Success?)
  {
    var url := Url(endpoint);
    var payload := Payload(client.apiKey, params);
    ghost var req := NewRequest(url, payload);
    sent, waits, res := [], [], None;
    var i := 0;
    while i < |outcomes|
      invariant i <= |outcomes|
      invariant Run(req, outcomes, parse, None) == After(sent, waits, Run(req, outcomes[i..], parse, res))
    {
      assert outcomes[i..][1..] == outcomes[i + 1..];
      match outcomes[i] {
        case RequestError(cause) =>
          status := Returned(Failure(ConstructingRequest(cause)));
          return;
        case TransportError(cause) =>
          sent := sent + [NewRequest(url, payload)];
          status := Returned(Failure(PerformingRequest(cause)));
          return;
        case Reply(r) =>
          if r.status == TooManyRequests {
            if !RateLimit.Indexable(r.header) {
              sent := sent + [NewRequest(url, payload)];
              status := Panicked;
              return;
            }
            var w := RateLimit.WaitForRetryAfter(r.header, parse);
            AfterAfter(sent, waits, [req], [w], Run(req, outcomes[i + 1..], parse, res));
            sent, waits := sent + [NewRequest(url, payload)], waits + [w];
          } else {
            AfterAfter(sent, waits, [req], [], Run(req, outcomes[i + 1..], parse, Some(r)));
            assert waits + [] == waits;
            sent, res := sent + [NewRequest(url, payload)], Some(r);
          }
      }
      i := i + 1;
    }
    status := Looping;
  }

  /** Every attempt sends the same request: the payload is built once and reused. */
  lemma {:induction false} RunResendsSameRequest(req: Request, outcomes: seq<Outcome>,
                                                 parse: RateLimit.DurationParser, res: Option<Response>)
    ensures forall j :: 0 <= j < |Run(req, outcomes, parse, res).sent| ==> Run(req, outcomes, parse, res).sent[j] == req
    decreases |outcomes|
  {
    if outcomes != [] && outcomes[0].Reply? {
      RunResendsSameRequest(req, outcomes[1..], parse,
        if outcomes[0].response.status == TooManyRequests then res else Some(outcomes[0].response));
    }
  }

  /** The loop as written never returns a result: its only exits are the error returns. */
  lemma {:induction false} RunNeverSucceeds(req: Request, outcomes: seq<Outcome>,
                                            parse: RateLimit.DurationParser, res: Option<Response>)
    ensures !(Run(req, outcomes, parse, res).status.Returned? && Run(req, outcomes, parse, res).status.result.Success?)
    decreases |outcomes|
  {
    if outcomes != [] && outcomes[0].Reply? {
      RunNeverSucceeds(req, outcomes[1..], parse,
        if outcomes[0].response.status == TooManyRequests then res else Some(outcomes[0].response));
    }
  }

  /** The waits the 429 responses among `outcomes` ask for, in order. */
  function WaitsOf(outcomes: seq<Outcome>, parse: RateLimit.DurationParser): seq<RateLimit.Duration>
    decreases |outcomes|
  {
    if outcomes == [] then []
    else if Retryable(outcomes[0])
    then [RateLimit.ChosenWait(outcomes[0].response.header, parse).value] + WaitsOf(outcomes[1..], parse)
    else WaitsOf(outcomes[1..], parse)
  }

  /** How a stopping outcome ends the call. */
  function ExitOf(o: Outcome): Status
    requires Stops(o)
  {
    match o
    case RequestError(cause) => Returned(Failure(ConstructingRequest(cause)))
    case TransportError(cause) => Returned(Failure(PerformingRequest(cause)))
    case Reply(_) => Panicked
  }

  /**
   * The loop as written stays in its loop exactly as long as no outcome stops it,
   * sending one request per outcome, every non-429 response included.
   */
  lemma {:induction false} RunLoopsUntilStop(req: Request, outcomes: seq<Outcome>,
                                             parse: RateLimit.DurationParser, res: Option<Response>)
    ensures Run(req, outcomes, parse, res).status.Looping? <==> forall j :: 0 <= j < |outcomes| ==> !Stops(outcomes[j])
    ensures Run(req, outcomes, parse, res).status.Looping? ==> |Run(req, outcomes, parse, res).sent| == |outcomes|
    ensures Run(req, outcomes, parse, res).status.Looping? ==> Run(req, outcomes, parse, res).waits == WaitsOf(outcomes, parse)
    decreases |outcomes|
  {
    if outcomes != [] && !Stops(outcomes[0]) {
      var r := outcomes[0].response;
      var rest := outcomes[1..];
      RunLoopsUntilStop(req, rest, parse, if r.status == TooManyRequests then res else Some(r));
      assert forall j :: 0 <= j < |rest| ==> rest[j] == outcomes[j + 1];
    }
  }

  /**
   * The loop as written ends at its first stopping outcome with that outcome's error,
   * having sent one request per earlier outcome (and one more unless the request
   * could not be constructed).
   */
  lemma {:induction false} RunExitsAtFirstStop(req: Request, outcomes: seq<Outcome>, k: nat,
                                               parse: RateLimit.DurationParser, res: Option<Response>)
    requires k < |outcomes| && Stops(outcomes[k])
    requires forall j :: 0 <= j < k ==> !Stops(outcomes[j])
    ensures Run(req, outcomes, parse, res).status == ExitOf(outcomes[k])
    ensures |Run(req, outcomes, parse, res).sent| == if outcomes[k].RequestError? then k else k + 1
    decreases k
  {
    if k > 0 {
      var r := outcomes[0].response;
      assert forall j :: 0 <= j < k - 1 ==> outcomes[1..][j] == outcomes[j + 1];
      RunExitsAtFirstStop(req, outcomes[1..], k - 1, parse, if r.status == TooManyRequests then res else Some(r));
    }
  }

  /** A 429 response is never stored in `res`. */
  lemma {:induction false} RunNeverStores429(req: Request, outcomes: seq<Outcome>,
                                             parse: RateLimit.DurationParser, res: Option<Response>)
    requires res.None? || res.value.status != TooManyRequests
    ensures var t := Run(req, outcomes, parse, res); t.res.None? || t.res.value.status != TooManyRequests
    decreases |outcomes|
  {
    if outcomes != [] && outcomes[0].Reply? {
      RunNeverStores429(req, outcomes[1..], parse,
        if outcomes[0].response.status == TooManyRequests then res else Some(outcomes[0].response));
    }
  }

  /**
   * A response other than 429 does not end the call as written: it is stored and the
   * same request goes out again, whereas the intended loop returns its handling.
   */
  lemma NonRetryReplyIsResent(req: Request, r: Response, next: seq<Outcome>,
                              parse: RateLimit.DurationParser, decode: Decoder, marshal: Encoder)
    requires r.status != TooManyRequests
    ensures Run(req, [Reply(r)] + next, parse, None) == After([req], [], Run(req, next, parse, Some(r)))
    ensures Run(req, [Reply(r)], parse, None) == Trace(Looping, [req], [], Some(r))
    ensures Intended(req, [Reply(r)] + next, parse, decode, marshal)
      == Trace(Returned(HandleResponse(r, decode, marshal)), [req], [], Some(r))
  {
  }

  /** The loop with the intended exit: it stops at the first response other than 429. */
  function Intended(req: Request, outcomes: seq<Outcome>, parse: RateLimit.DurationParser,
                    decode: Decoder, marshal: Encoder): Trace
    decreases |outcomes|
  {
    if outcomes == [] then Trace(Looping, [], [], None)
    else match outcomes[0]
      case RequestError(cause) => Trace(Returned(Failure(ConstructingRequest(cause))), [], [], None)
      case TransportError(cause) => Trace(Returned(Failure(PerformingRequest(cause))), [req], [], None)
      case Reply(r) =>
        if r.status == TooManyRequests then
          match RateLimit.ChosenWait(r.header, parse)
          case None => Trace(Panicked, [req], [], None)
          case Some(w) => After([req], [w], Intended(req, outcomes[1..], parse, decode, marshal))
        else
          Trace(Returned(HandleResponse(r, decode, marshal)), [req], [], Some(r))
  }

  /** `MakeCall` with the loop left at the first response other than 429. */
  method MakeCallIntended(client: ApiClient, endpoint: string, params: string,
                          outcomes: seq<Outcome>, parse: RateLimit.DurationParser,
                          decode: Decoder, marshal: Encoder)
    returns (status: Status, sent: seq<Request>, waits: seq<RateLimit.Duration>, res: Option<Response>)
    ensures Trace(status, sent, waits, res) == Intended(CallRequest(client, endpoint, params), outcomes, parse, decode, marshal)
  {
    var url := Url(endpoint);
    var payload := Payload(client.apiKey, params);
    ghost var req := NewRequest(url, payload);
    sent, waits, res := [], [], None;
    var i := 0;
    while i < |outcomes|
      invariant i <= |outcomes|
      invariant res == None
      invariant Intended(req, outcomes, parse, decode, marshal)
        == After(sent, waits, Intended(req, outcomes[i..], parse, decode, marshal))
    {
      assert outcomes[i..][1..] == outcomes[i + 1..];
      match outcomes[i] {
        case RequestError(cause) =>
          status := Returned(Failure(ConstructingRequest(cause)));
          return;
        case TransportError(cause) =>
          sent := sent + [NewRequest(url, payload)];
          status := Returned(Failure(PerformingRequest(cause)));
          return;
        case Reply(r) =>
          if r.status == TooManyRequests {
            if !RateLimit.Indexable(r.header) {
              sent := sent + [NewRequest(url, payload)];
              status := Panicked;
              return;
            }
            var w := RateLimit.WaitForRetryAfter(r.header, parse);
            AfterAfter(sent, waits, [req], [w], Intended(req, outcomes[i + 1..], parse, decode, marshal));
            sent, waits := sent + [NewRequest(url, payload)], waits + [w];
          } else {
            sent, res := sent + [NewRequest(url, payload)], Some(r);
            status := Returned(HandleResponse(r, decode, marshal));
            return;
          }
      }
      i := i + 1;
    }
    status := Looping;
  }

  /** A readable 429 response. */
  predicate Retryable(o: Outcome) {
    o.Reply? && o.response.status == TooManyRequests && RateLimit.Indexable(o.response.header)
  }

  /**
   * After n readable 429s and then a response `r` other than 429, the intended loop
   * has sent n + 1 requests, waited n times and returns the handling of `r`.
   */
  lemma {:induction false} IntendedStopsAfterRetries(req: Request, retries: seq<Outcome>, r: Response, rest: seq<Outcome>,
                                                     parse: RateLimit.DurationParser, decode: Decoder, marshal: Encoder)
    requires forall j :: 0 <= j < |retries| ==> Retryable(retries[j])
    requires r.status != TooManyRequests
    ensures var t := Intended(req, retries + [Reply(r)] + rest, parse, decode, marshal);
      t.status == Returned(HandleResponse(r, decode, marshal))
      && |t.sent| == |retries| + 1 && |t.waits| == |retries| && t.waits == WaitsOf(retries, parse)
      && t.res == Some(r)
    decreases |retries|
  {
    var o := retries + [Reply(r)] + rest;
    if retries == [] {
      assert o[0] == Reply(r);
    } else {
      assert o[0] == retries[0];
      assert o[1..] == retries[1..] + [Reply(r)] + rest;
      IntendedStopsAfterRetries(req, retries[1..], r, rest, parse, decode, marshal);
    }
  }

  /**
   * End to end: after n readable 429s, a response whose body decodes to an object
   * with `stat` "ok" makes the intended call return exactly that object; any other
   * decoded object makes it fail with the encoding of its `error` field.
   */
  lemma IntendedReturnsDecodedEnvelope(req: Request, retries: seq<Outcome>, r: Response, rest: seq<Outcome>,
                                       fields: map<string, JsonValue.Json>, parse: RateLimit.DurationParser,
                                       decode: Decoder, marshal: Encoder)
    requires forall j :: 0 <= j < |retries| ==> Retryable(retries[j])
    requires r.status != TooManyRequests
    requires r.body.Success? && decode(r.body.value) == Some(JsonValue.JObject(fields))
    ensures var t := Intended(req, retries + [Reply(r)] + rest, parse, decode, marshal);
      t.status == (if "stat" in fields && fields["stat"] == JsonValue.JString("ok") then Returned(Success(fields))
                   else Returned(Failure(ApiFailure(marshal(Field(fields, "error"))))))
      && |t.sent| == |retries| + 1 && t.waits == WaitsOf(retries, parse)
  {
    IntendedStopsAfterRetries(req, retries, r, rest, parse, decode, marshal);
  }

  /** The intended loop succeeds only with an envelope whose `stat` is the string "ok". */
  lemma {:induction false} IntendedSuccessIsOk(req: Request, outcomes: seq<Outcome>,
                                               parse: RateLimit.DurationParser, decode: Decoder, marshal: Encoder)
    ensures var t := Intended(req, outcomes, parse, decode, marshal);
      t.status.Returned? && t.status.result.Success? ==>
        "stat" in t.status.result.value && t.status.result.value["stat"] == JsonValue.JString("ok")
    decreases |outcomes|
  {
    if outcomes != [] && outcomes[0].Reply? && outcomes[0].response.status == TooManyRequests {
      IntendedSuccessIsOk(req, outcomes[1..], parse, decode, marshal);
    }
  }

  /** Until the first response other than 429 the two loops do the same thing. */
  lemma {:induction false} RunAgreesWithIntendedOnRetries(req: Request, outcomes: seq<Outcome>,
                                                          parse: RateLimit.DurationParser, decode: Decoder, marshal: Encoder)
    requires forall j :: 0 <= j < |outcomes| ==> !NonRetry(outcomes[j])
    ensures Run(req, outcomes, parse, None) == Intended(req, outcomes, parse, decode, marshal)
    decreases |outcomes|
  {
    if outcomes != [] {
      assert !NonRetry(outcomes[0]);
      forall j | 0 <= j < |outcomes[1..]| ensures !NonRetry(outcomes[1..][j]) { assert outcomes[1..][j] == outcomes[j + 1]; }
      RunAgreesWithIntendedOnRetries(req, outcomes[1..], parse, decode, marshal);
    }
  }
}
