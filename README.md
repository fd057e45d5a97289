# UptimeRobot API client: the call core in Dafny

This project models the decision core of `uptimerobot/api/client.go`, the client a Terraform
provider uses to talk to the UptimeRobot v2 REST API. The network, the clock and the JSON
library are abstract inputs. What remains is modelled and proved:

- the client value and the request it sends (`ApiRequest`): the URL
  `https://api.uptimerobot.com/v2/<endpoint>` and the form body
  `api_key=<key>&format=json&<params>`;
- the rate-limit waiter `waitForRetryAfter` (`RateLimit`): the wait it picks from the
  `Retry-After` header, with `time.ParseDuration` as a parser parameter;
- the retry loop of `MakeCall` (`ApiCall`), driven by a finite script of outcomes. Each outcome
  is a request-construction error, a transport error or a response. When the script runs out
  before the call has returned, the call is reported as `Looping`;
- the code after the loop (`Envelope`): reading the body, decoding it into a map, and checking
  that `stat` is the JSON string `"ok"`.

The loop is modelled twice. `ApiCall.Run` and `ApiCall.MakeCall` follow the code as written.
There, the `break` at client.go:60 leaves only the `switch`, so no response ever ends the loop.
`ApiCall.Intended` and `ApiCall.MakeCallIntended` leave the loop at the first response other
than 429 and hand it to `Envelope.HandleResponse`, which models client.go:64-80. See
"## Findings".

The model follows the code as written; some of its behaviour is easy to misread:

- A single `Retry-After` value is parsed by `time.ParseDuration(value + "s")`. It is not read as
  a count of whole seconds. A value such as `1.5` or `-5` is therefore accepted (1.5 s, -5 s).
  A digit string above 9223372036 overflows, so the wait falls back to one second.
- A `Retry-After` key that is present with no values is not defaulted. Indexing `[0]` then
  panics, which the model reports as `Panicked`.
- A body that is JSON `null` decodes without error into a nil map. It is then refused as an API
  failure whose error detail is the encoding of `null`.
- Go's map lookup gives nil both for a missing key and for a JSON `null`. So a missing `stat` or
  `error` key reads the same as one that holds `null` (`Envelope.Field`).

## Model

| member | source | states |
|---|---|---|
| ApiRequest.New | uptimerobot/api/client.go:15-21 | the client holds exactly the key it was built with |
| ApiRequest.Url | uptimerobot/api/client.go:29 | the URL is the fixed v2 API base followed by the endpoint, which can be read back from it |
| ApiRequest.PayloadRoundTrip | uptimerobot/api/client.go:39 | the body is `api_key=` + key + `&format=json&` + params: reading it back gives the key and the params unchanged whenever the key contains no `&` |
| ApiRequest.PayloadAmbiguousForAmpersandKey | uptimerobot/api/client.go:39 | for every key k and params p, the key k + `&format=json` with p gives the same body as the key k with `format=json&` + p, because the key is inserted without escaping |
| RateLimit.ChosenWait | uptimerobot/api/client.go:83-94 | the waiter fails (panics) exactly when the `Retry-After` key is present with an empty value list |
| RateLimit.WaitForRetryAfter | uptimerobot/api/client.go:83-94 | absent or multi-valued header: the parse of `"1s"`; one value v: the parse of v + `"s"`; a failed parse: exactly one second; never an error |
| RateLimit.DefaultWaitIsOneSecond | uptimerobot/api/client.go:84-88 | with `time.ParseDuration` on plain digits, an absent or multi-valued header gives a wait of exactly one second |
| RateLimit.SingleDigitsWait | uptimerobot/api/client.go:90-94 | a single value made of digits gives that many seconds; an empty value or a count too large for a Duration gives one second |
| RateLimit.PlainSecondsParserParsesPlainSeconds | uptimerobot/api/client.go:90 | the digits-plus-"s" fragment of `time.ParseDuration` that the lemmas assume can be realised |
| Envelope.CheckEnvelope | uptimerobot/api/client.go:75-80 | success exactly when `stat` holds the JSON string "ok", returning the decoded map unchanged; otherwise an API error carrying the encoding of the `error` field (of `null` when it is missing) |
| Envelope.HandleResponse | uptimerobot/api/client.go:64-80 | a read failure is a body-read error; a body that decodes to no map is a decode error that carries the raw body; a body that decodes to a map returns that map exactly when its `stat` is the string "ok" and otherwise fails with the encoding of its `error` field; success only for a body that decodes to an object |
| Envelope.OnlyStatDecides | uptimerobot/api/client.go:75 | changing any field other than `stat` does not change whether the envelope is accepted |
| Envelope.OtherStatRefused | uptimerobot/api/client.go:75-77 | any `stat` other than the string "ok" (another string, a number, a boolean, null) is refused |
| Envelope.NullBodyRefused | uptimerobot/api/client.go:70-77 | a body that is JSON `null` is not a decode error but an API failure reporting `null` |
| ApiCall.MakeCall | uptimerobot/api/client.go:23-62 | the loop as written produces exactly the trace `Run` gives for the call's request and never returns a result |
| ApiCall.RunResendsSameRequest | uptimerobot/api/client.go:39-48 | every attempt sends the same POST to the same URL with the same payload |
| ApiCall.RunNeverSucceeds | uptimerobot/api/client.go:41-62 | whatever the responses, the loop as written never reaches the successful return |
| ApiCall.RunLoopsUntilStop | uptimerobot/api/client.go:41-62 | the call stays in its loop exactly as long as no construction error, transport error or unreadable 429 occurs; it then sends one request per outcome, non-429 responses included, and waits once per 429, for the wait that response's header asks |
| ApiCall.RunExitsAtFirstStop | uptimerobot/api/client.go:42-53 | the call ends at the first construction or transport error with that error and no retry, having sent one request per earlier outcome, plus one for a transport error |
| ApiCall.RunNeverStores429 | uptimerobot/api/client.go:55-60 | a 429 response is never stored in `res` |
| ApiCall.NonRetryReplyIsResent | uptimerobot/api/client.go:58-61 | a non-429 response is stored and the same request is sent again; the intended loop instead returns that response's handling |
| ApiCall.MakeCallIntended | uptimerobot/api/client.go:41-80 | the loop with its intended exit produces exactly the trace `Intended` gives |
| ApiCall.IntendedStopsAfterRetries | uptimerobot/api/client.go:41-80 | after n readable 429s followed by a non-429 response r, the intended call has sent n + 1 requests, waited n times for the waits those headers ask, and returns the handling of r |
| ApiCall.IntendedReturnsDecodedEnvelope | uptimerobot/api/client.go:41-80 | after n readable 429s, a response whose body decodes to an object returns that object when its `stat` is "ok" and otherwise fails with the encoding of its `error` field, after n + 1 requests and the n waits the 429s ask for |
| ApiCall.IntendedSuccessIsOk | uptimerobot/api/client.go:75-80 | the intended call succeeds only with a map whose `stat` is the string "ok" |
| ApiCall.RunAgreesWithIntendedOnRetries | uptimerobot/api/client.go:41-62 | as long as no response other than 429 arrives, the loop as written and the intended loop behave identically |

## Findings

| source | as written | input that shows it | evidently intended | confidence | as-written member | corrected member |
|---|---|---|---|---|---|---|
| uptimerobot/api/client.go:55-62 | `break` in the `default` case of the `switch` ends only the `switch`, so the `for` loop sends the request again after every non-429 response; lines 64-80 are unreachable | one response with status 200: the call stores it, sends the request again, and never returns it | leave the loop at the first non-429 response and decode, check and return it | high (not executed) | ApiCall.NonRetryReplyIsResent | ApiCall.IntendedStopsAfterRetries |

## Left out

- Network I/O (`http.Client`, `http.Transport`, `logging.NewTransport`, `c.Do`) is left out. Each attempt's result is an input `Outcome`.
- `time.Sleep` is left out. The waiter returns the duration it would sleep.
- `time.ParseDuration` is a parser parameter. The lemmas fix it only on digit strings followed by `s`. Its other forms (fractions, signs, other units such as `1m` + `s` = 1 ms) are not modelled.
- `ioutil.ReadAll` is an input: the response body is either the text or the read error.
- `json.Unmarshal` and `json.Marshal` are function parameters. JSON numbers keep their literal text instead of becoming float64.
- The error message prefixes (`contructing request: `, `decoding response body %q: ` and so on) and the wrapped Go errors are left out. Each error return is a `CallError` constructor carrying its cause, the raw body or the serialized error field.
- Logging, closing the response body and the leak of unread bodies are left out. They have no functional contract.
- Sharing a client between goroutines is left out. The client value is immutable and every call is a pure function of its inputs.
- Request-construction errors: the model lets one occur at any attempt. In Go `http.NewRequest` sees the same method, URL and payload every time, so only the first attempt can fail that way; no proved property relies on a later one.
- ApiCall.MakeCall: the Go loop is unbounded. The model runs it over a finite script of outcomes and reports `Looping` when the script ends, so an infinite run is not represented directly.
