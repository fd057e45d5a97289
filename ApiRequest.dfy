/**
 * The client value and the request it sends: the endpoint URL and the
 * form-encoded payload that carries the API key and the output format.
 */
module ApiRequest {
  import opened Wrappers

  /** `UptimeRobotApiClient`: holds the API key and nothing else; never changed. */
  datatype ApiClient = ApiClient(apiKey: string)

  /** `New`: a client for the given key. */
  function New(apiKey: string): (client: ApiClient)
    ensures client.apiKey == apiKey
  {
    ApiClient(apiKey)
  }

  const BaseUrl: string := "https://api.uptimerobot.com/v2/"
  const KeyField: string := "api_key="
  const FormatField: string := "format=json&"

  /** The endpoint URL: the fixed API base followed by the endpoint name, which can be read back off it. */
  function Url(endpoint: string): (url: string)
    ensures |url| == |BaseUrl| + |endpoint|
    ensures url[..|BaseUrl|] == BaseUrl && url[|BaseUrl|..] == endpoint
  {
    BaseUrl + endpoint
  }

  /** The request body `api_key=<key>&format=json&<params>`. */
  function Payload(apiKey: string, params: string): string {
    KeyField + apiKey + "&" + FormatField + params
  }

  /** Splits `s` at its first `c`: the text before it and the text after it. */
  function SplitAtFirst(s: string, c: char): (r: Option<(string, string)>)
    ensures r.Some? ==> c !in r.value.0 && s == r.value.0 + [c] + r.value.1
    ensures r.None? ==> c !in s
  {
    if s == [] then None
    else if s[0] == c then Some(([], s[1..]))
    else match SplitAtFirst(s[1..], c)
      case None => None
      case Some((before, after)) => Some(([s[0]] + before, after))
  }

  /** Reads a payload back into its API key and caller parameters. */
  function FormFields(payload: string): Option<(string, string)> {
    if |payload| < |KeyField| || payload[..|KeyField|] != KeyField then None
    else match SplitAtFirst(payload[|KeyField|..], '&')
      case None => None
      case Some((key, rest)) =>
        if |rest| < |FormatField| || rest[..|FormatField|] != FormatField then None
        else Some((key, rest[|FormatField|..]))
  }

  lemma {:induction false} SplitAtFirstFinds(before: string, c: char, after: string)
    requires c !in before
    ensures SplitAtFirst(before + [c] + after, c) == Some((before, after))
  {
    if before != [] {
      assert (before + [c] + after)[1..] == before[1..] + [c] + after;
      SplitAtFirstFinds(before[1..], c, after);
      assert [before[0]] + before[1..] == before;
    }
  }

  /** The API key and the parameters can be read back from the payload when the key holds no `&`. */
  lemma PayloadRoundTrip(apiKey: string, params: string)
    requires '&' !in apiKey
    ensures FormFields(Payload(apiKey, params)) == Some((apiKey, params))
  {
    var p := Payload(apiKey, params);
    assert p[..|KeyField|] == KeyField;
    assert p[|KeyField|..] == apiKey + ['&'] + (FormatField + params);
    SplitAtFirstFinds(apiKey, '&', FormatField + params);
    assert (FormatField + params)[..|FormatField|] == FormatField;
    assert (FormatField + params)[|FormatField|..] == params;
  }

  /** A key ending in `&format=json` makes two different calls send the same body. */
  lemma PayloadAmbiguousForAmpersandKey(k: string, params: string)
    ensures Payload(k + "&format=json", params) == Payload(k, "format=json&" + params)
  {
  }

  /** An outgoing HTTP request. */
  datatype Request = Request(verb: string, url: string, headers: seq<(string, string)>, body: string)

  /** `http.NewRequest` for a POST of `payload`, with the two headers the client adds. */
  function NewRequest(url: string, payload: string): Request {
    Request("POST", url, [("cache-control", "no-cache"), ("content-type", "application/x-www-form-urlencoded")], payload)
  }

  /** The one request a call of `endpoint` with `params` sends, on every attempt. */
  function CallRequest(client: ApiClient, endpoint: string, params: string): Request {
    NewRequest(Url(endpoint), Payload(client.apiKey, params))
  }
}
