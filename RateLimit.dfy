/**
 * The rate-limit waiter (`waitForRetryAfter`): how long to sleep after an HTTP 429,
 * chosen from the response's `Retry-After` header. The sleep itself is left out;
 * the waiter returns the duration it would sleep for.
 */
module RateLimit {
  import opened Wrappers

  /** A `time.Duration`: a signed count of nanoseconds. */
  type Duration = int

  const Second: Duration := 1_000_000_000

  /** The largest whole number of seconds `time.ParseDuration` accepts (int64 nanoseconds). */
  const MaxSeconds: nat := 9_223_372_036

  const RetryAfterKey: string := "Retry-After"

  /** Response headers: each canonical header name maps to the list of its values. */
  type Header = map<string, seq<string>>

  /** `time.ParseDuration`: Some(d) when it parses, None when it reports an error. */
  type DurationParser = string -> Option<Duration>

  predicate IsDigit(c: char) {
    '0' <= c <= '9'
  }

  predicate AllDigits(s: string) {
    forall i :: 0 <= i < |s| ==> IsDigit(s[i])
  }

  /** The decimal value of a run of digits. */
  function DigitsValue(s: string): nat
    requires AllDigits(s)
  {
    if s == [] then 0 else 10 * DigitsValue(s[..|s| - 1]) + (s[|s| - 1] as int - '0' as int)
  }

  /**
   * What `time.ParseDuration` gives for digits followed by the unit "s": that many
   * seconds, or an error when there are no digits or the count overflows a Duration.
   */
  function PlainSeconds(digits: string): Option<Duration>
    requires AllDigits(digits)
  {
    if digits != [] && DigitsValue(digits) <= MaxSeconds then Some(DigitsValue(digits) * Second) else None
  }

  /** A parser that agrees with `time.ParseDuration` on every "<digits>s" input. */
  ghost predicate ParsesPlainSeconds(parse: DurationParser) {
    forall digits :: AllDigits(digits) ==> parse(digits + "s") == PlainSeconds(digits)
  }

  /** The digits-only fragment of `time.ParseDuration`; every other input is refused. */
  function PlainSecondsParser(s: string): Option<Duration> {
    if |s| > 0 && s[|s| - 1] == 's' && AllDigits(s[..|s| - 1]) then PlainSeconds(s[..|s| - 1]) else None
  }

  lemma PlainSecondsParserParsesPlainSeconds()
    ensures ParsesPlainSeconds(PlainSecondsParser)
  {
  }

  /** The waiter can read the header: a present Retry-After key has at least one value. */
  predicate Indexable(h: Header) {
    RetryAfterKey in h ==> h[RetryAfterKey] != []
  }

  /** The values the waiter goes on with: ["1"] when the header is absent or has several values. */
  function EffectiveRaws(h: Header): seq<string> {
    if RetryAfterKey !in h || |h[RetryAfterKey]| > 1 then ["1"] else h[RetryAfterKey]
  }

  /**
   * The wait chosen for header `h`, or None where the waiter indexes an empty
   * value list and panics.
   */
  function ChosenWait(h: Header, parse: DurationParser): (w: Option<Duration>)
    ensures w.None? <==> !Indexable(h)
  {
    var raws := EffectiveRaws(h);
    if |raws| == 0 then None
    else match parse(raws[0] + "s")
      case Some(d) => Some(d)
      case None => Some(Second)
  }

  method WaitForRetryAfter(h: Header, parse: DurationParser) returns (waitTime: Duration)
    requires Indexable(h)
    ensures ChosenWait(h, parse) == Some(waitTime)
    ensures RetryAfterKey !in h || |h[RetryAfterKey]| > 1 ==>
      waitTime == (if parse("1s").Some? then parse("1s").value else Second)
    ensures RetryAfterKey in h && |h[RetryAfterKey]| == 1 ==>
      waitTime == (if parse(h[RetryAfterKey][0] + "s").Some? then parse(h[RetryAfterKey][0] + "s").value else Second)
  {
    var ok := RetryAfterKey in h;
    var retryAfterRaws: seq<string> := if ok then h[RetryAfterKey] else [];
    if !ok || |retryAfterRaws| > 1 {
      retryAfterRaws := ["1"];
      assert retryAfterRaws[0] + "s" == "1s";
    }
    var parsed := parse(retryAfterRaws[0] + "s");
    if parsed.None? {
      waitTime := Second;
    } else {
      waitTime := parsed.value;
    }
  }

  /** An absent or multi-valued header means a wait of exactly one second. */
  lemma DefaultWaitIsOneSecond(h: Header, parse: DurationParser)
    requires ParsesPlainSeconds(parse)
    requires RetryAfterKey !in h || |h[RetryAfterKey]| > 1
    ensures ChosenWait(h, parse) == Some(Second)
  {
  }

  /**
   * A single value made of digits gives that many seconds; no digits, or a count
   * too large for a Duration, falls back to one second.
   */
  lemma SingleDigitsWait(h: Header, parse: DurationParser, v: string)
    requires ParsesPlainSeconds(parse)
    requires RetryAfterKey in h && h[RetryAfterKey] == [v] && AllDigits(v)
    ensures ChosenWait(h, parse)
      == Some(if v != [] && DigitsValue(v) <= MaxSeconds then DigitsValue(v) * Second else Second)
  {
  }
}
