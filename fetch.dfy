/** The rate-limited fetcher `get_with_retry` (osf_pigeon/pigeon.py:236-259):
    how one HTTP response is classified (retry signal, error or success), and
    the `sleep_and_retry` loop that re-issues the request after every retry
    signal. The HTTP request itself is not modelled: a run is given the
    responses the server would send, in order. */
module Fetch {
  import opened Common

  /** What the classifier reads from a `requests.Response`: its status and
      its `Retry-After` header, when present. */
  datatype HttpResponse = HttpResponse(status: int, retryAfter: Option<string>)

  /** The three ways one call of the decorated function ends: it raises
      RateLimitException with a period (retried by `sleep_and_retry`), it
      raises another error, or it returns the response. */
  datatype Decision = Retry(period: int) | Raise(error: Error) | Accept

  /** Statuses for which `raise_for_status` raises (client and server errors). */
  predicate IsHttpError(status: int) {
    400 <= status < 600
  }

  predicate IsSpace(c: char) {
    c == ' ' || c == '\t' || c == '\n' || c == '\r' || c as int == 11 || c as int == 12
  }

  function TrimLeft(s: string): (t: string)
    ensures |t| <= |s| && (t != [] ==> !IsSpace(t[0]))
  {
    if s != [] && IsSpace(s[0]) then TrimLeft(s[1..]) else s
  }

  function TrimRight(s: string): (t: string)
    ensures |t| <= |s| && (t != [] ==> !IsSpace(t[|t| - 1]))
  {
    if s != [] && IsSpace(s[|s| - 1]) then TrimRight(s[..|s| - 1]) else s
  }

  /** Digits, with single underscores allowed between two digits, as
      Python's int() accepts them. */
  predicate GroupedDigits(s: string) {
    && s != []
    && IsDigit(s[0]) && IsDigit(s[|s| - 1])
    && (forall i :: 0 <= i < |s| ==> IsDigit(s[i]) || s[i] == '_')
    && (forall i :: 0 <= i < |s| - 1 ==> s[i] == '_' ==> s[i + 1] != '_')
  }

  function DropUnderscores(s: string): (t: string)
    requires forall i :: 0 <= i < |s| ==> IsDigit(s[i]) || s[i] == '_'
    ensures AllDigits(t)
  {
    if s == [] then [] else (if s[0] == '_' then [] else [s[0]]) + DropUnderscores(s[1..])
  }

  /** Python's int(s) for a str argument: surrounding whitespace, an optional
      sign, then decimal digits; None where int() raises ValueError. */
  function PyInt(s: string): (r: Option<int>)
    ensures r.Some? ==> TrimRight(TrimLeft(s)) != []
  {
    var t := TrimRight(TrimLeft(s));
    if t == [] then None
    else
      var body := if t[0] == '-' || t[0] == '+' then t[1..] else t;
      if !GroupedDigits(body) then None
      else
        var n: int := DigitsValue(DropUnderscores(body));
        Some(if t[0] == '-' then -n else n)
  }

  lemma {:induction false} DropUnderscoresDigits(s: string)
    requires AllDigits(s)
    ensures DropUnderscores(s) == s
  {
    if s != [] {
      DropUnderscoresDigits(s[1..]);
    }
  }

  /** A text that begins and ends with a non-space has nothing to trim. */
  lemma Untrimmed(s: string)
    requires s != [] && !IsSpace(s[0]) && !IsSpace(s[|s| - 1])
    ensures TrimRight(TrimLeft(s)) == s
  {
    assert TrimLeft(s) == s;
  }

  /** int() of a text whose stripped form is a run of digits. */
  lemma PyIntOfTrimmed(s: string, d: string)
    requires d != [] && AllDigits(d)
    requires TrimRight(TrimLeft(s)) == d
    ensures PyInt(s) == Some(DigitsValue(d) as int)
  {
    GroupedPlainDigits(d);
    assert IsDigit(d[0]);
  }

  /** int() of a text whose stripped form is '-' and a run of digits. */
  lemma PyIntOfTrimmedNegative(s: string, d: string)
    requires d != [] && AllDigits(d)
    requires TrimRight(TrimLeft(s)) == "-" + d
    ensures PyInt(s) == Some(-(DigitsValue(d) as int))
  {
    GroupedPlainDigits(d);
    var t := TrimRight(TrimLeft(s));
    assert t[0] == '-' && t[1..] == d;
  }

  /** Plain digits are grouped digits without underscores. */
  lemma GroupedPlainDigits(d: string)
    requires d != [] && AllDigits(d)
    ensures GroupedDigits(d) && DropUnderscores(d) == d
  {
    DropUnderscoresDigits(d);
  }

  /** int() reads a non-empty run of decimal digits as the number it denotes. */
  lemma PyIntDigits(s: string)
    requires s != [] && AllDigits(s)
    ensures PyInt(s) == Some(DigitsValue(s) as int)
  {
    assert !IsSpace(s[0]) && !IsSpace(s[|s| - 1]);
    Untrimmed(s);
    PyIntOfTrimmed(s, s);
  }

  predicate NoDigit(s: string) {
    forall i :: 0 <= i < |s| ==> !IsDigit(s[i])
  }

  lemma {:induction false} TrimLeftNoDigit(s: string)
    requires NoDigit(s)
    ensures NoDigit(TrimLeft(s))
  {
    if s != [] && IsSpace(s[0]) {
      TrimLeftNoDigit(s[1..]);
    }
  }

  lemma {:induction false} TrimRightNoDigit(s: string)
    requires NoDigit(s)
    ensures NoDigit(TrimRight(s))
  {
    if s != [] && IsSpace(s[|s| - 1]) {
      TrimRightNoDigit(s[..|s| - 1]);
    }
  }

  /** int() rejects a text holding no decimal digit (`"abc"`, `"-"`, `""`). */
  lemma PyIntNeedsDigit(s: string)
    requires NoDigit(s)
    ensures PyInt(s).None?
  {
    TrimLeftNoDigit(s);
    TrimRightNoDigit(TrimLeft(s));
    var t := TrimRight(TrimLeft(s));
    if t != [] {
      var body := if t[0] == '-' || t[0] == '+' then t[1..] else t;
      if body != [] {
        assert body[0] == t[if t[0] == '-' || t[0] == '+' then 1 else 0];
      }
    }
  }

  predicate AllSpace(s: string) {
    forall i :: 0 <= i < |s| ==> IsSpace(s[i])
  }

  lemma {:induction false} TrimLeftSpaces(lead: string, x: string)
    requires AllSpace(lead) && x != [] && !IsSpace(x[0])
    ensures TrimLeft(lead + x) == x
  {
    if lead != [] {
      assert (lead + x)[0] == lead[0];
      assert (lead + x)[1..] == lead[1..] + x;
      TrimLeftSpaces(lead[1..], x);
    } else {
      assert lead + x == x;
    }
  }

  lemma {:induction false} TrimRightSpaces(x: string, trail: string)
    requires AllSpace(trail) && x != [] && !IsSpace(x[|x| - 1])
    ensures TrimRight(x + trail) == x
  {
    if trail != [] {
      var init := trail[..|trail| - 1];
      assert (x + trail)[|x + trail| - 1] == trail[|trail| - 1];
      assert (x + trail)[..|x + trail| - 1] == x + init;
      TrimRightSpaces(x, init);
    } else {
      assert x + trail == x;
    }
  }

  /** int() ignores whitespace around the digits: `" 7"` and `"7\r"` read
      as 7. */
  lemma PyIntSpaced(lead: string, n: nat, trail: string)
    requires AllSpace(lead) && AllSpace(trail)
    ensures PyInt(lead + Decimal(n) + trail) == Some(n)
  {
    var d := Decimal(n);
    DecimalValue(n);
    assert !IsSpace(d[0]) && !IsSpace(d[|d| - 1]);
    assert lead + d + trail == lead + (d + trail);
    assert (d + trail)[0] == d[0];
    TrimLeftSpaces(lead, d + trail);
    TrimRightSpaces(d, trail);
    PyIntOfTrimmed(lead + d + trail, d);
  }

  /** int() reads `-` followed by a run of digits as its negation. */
  lemma PyIntNegated(d: string)
    requires d != [] && AllDigits(d)
    ensures PyInt("-" + d) == Some(-(DigitsValue(d) as int))
  {
    var t := "-" + d;
    assert t[0] == '-' && t[|t| - 1] == d[|d| - 1];
    assert !IsSpace(t[|t| - 1]);
    Untrimmed(t);
    PyIntOfTrimmedNegative(t, d);
  }

  /** The header a server writes for a delay of n seconds, str(n), is read
      back by int() as n. */
  lemma PyIntDecimal(n: nat)
    ensures PyInt(Decimal(n)) == Some(n)
  {
    PyIntDigits(Decimal(n));
    DecimalValue(n);
  }

  /** A truthy `sleep_period` argument. */
  predicate HasSleepPeriod(sleepPeriod: Option<int>) {
    sleepPeriod.Some? && sleepPeriod.value != 0
  }

  /** A truthy `Retry-After` header. */
  predicate HasRetryAfter(retryAfter: Option<string>) {
    retryAfter.Some? && retryAfter.value != ""
  }

  /** `sleep_period or int(resp.headers.get('Retry-After') or 0)`. */
  function RetryPeriod(sleepPeriod: Option<int>, retryAfter: Option<string>): (r: Result<int>)
    // the only failure is int() rejecting the header text
    ensures r.Err? <==> !HasSleepPeriod(sleepPeriod) && HasRetryAfter(retryAfter) && PyInt(retryAfter.value).None?
    ensures r.Err? ==> r.error == ValueError
    ensures HasSleepPeriod(sleepPeriod) ==> r == Ok(sleepPeriod.value)
    ensures !HasSleepPeriod(sleepPeriod) && HasRetryAfter(retryAfter) && r.Ok? ==> Some(r.value) == PyInt(retryAfter.value)
    ensures !HasSleepPeriod(sleepPeriod) && !HasRetryAfter(retryAfter) ==> r == Ok(0)
  {
    if sleepPeriod.Some? && sleepPeriod.value != 0 then Ok(sleepPeriod.value)
    else if retryAfter.Some? && retryAfter.value != "" then
      match PyInt(retryAfter.value)
      case Some(n) => Ok(n)
      case None => Err(ValueError)
    else Ok(0)
  }

  /** One call of the decorated `get_with_retry` body, after its request. */
  function Classify(resp: HttpResponse, retryOn: set<int>, sleepPeriod: Option<int>): (d: Decision)
    // a response with a retry status is never handed to the caller: it is
    // a retry after the period, or the ValueError of reading that period
    ensures resp.status in retryOn ==> (d == Raise(ValueError) <==> RetryPeriod(sleepPeriod, resp.retryAfter).Err?)
    ensures resp.status in retryOn && RetryPeriod(sleepPeriod, resp.retryAfter).Ok? ==> d == Retry(RetryPeriod(sleepPeriod, resp.retryAfter).value)
    ensures resp.status !in retryOn ==> !d.Retry?
    ensures resp.status !in retryOn && IsHttpError(resp.status) ==> d == Raise(HttpError(resp.status))
    ensures d.Accept? <==> resp.status !in retryOn && !IsHttpError(resp.status)
  {
    if resp.status in retryOn then
      match RetryPeriod(sleepPeriod, resp.retryAfter)
      case Ok(p) => Retry(p)
      case Err(e) => Raise(e)
    else if IsHttpError(resp.status) then Raise(HttpError(resp.status))
    else Accept
  }

  /** A caller-given sleep period overrides whatever the server asks for. */
  lemma SleepPeriodWins(resp: HttpResponse, retryOn: set<int>, p: int)
    requires resp.status in retryOn && p != 0
    ensures Classify(resp, retryOn, Some(p)) == Retry(p)
  {
  }

  /** Without a sleep period, the server's `Retry-After: n` is honoured. */
  lemma RetryAfterHonoured(status: int, retryOn: set<int>, sleepPeriod: Option<int>, n: nat)
    requires status in retryOn
    requires sleepPeriod.None? || sleepPeriod == Some(0)
    ensures Classify(HttpResponse(status, Some(Decimal(n))), retryOn, sleepPeriod) == Retry(n)
  {
    PyIntDecimal(n);
  }

  /** Without a sleep period or a (non-empty) Retry-After header the retry
      is immediate. */
  lemma NoHintRetriesAtOnce(status: int, retryOn: set<int>, sleepPeriod: Option<int>, retryAfter: Option<string>)
    requires status in retryOn
    requires sleepPeriod.None? || sleepPeriod == Some(0)
    requires retryAfter.None? || retryAfter == Some("")
    ensures Classify(HttpResponse(status, retryAfter), retryOn, sleepPeriod) == Retry(0)
  {
  }

  /** How the `sleep_and_retry` loop ends: with a returned response, a raised
      error, or (when the given responses run out) still retrying. */
  datatype Outcome = Returned(response: HttpResponse) | Raised(error: Error) | StillRetrying

  /** The outcome, the number of requests made, and the periods slept. */
  datatype Run = Run(outcome: Outcome, attempts: nat, sleeps: seq<int>)

  /** `sleep_and_retry` around `get_with_retry`: request, classify, and on a
      retry signal sleep for its period and request again. `time.sleep`
      raises ValueError for a negative period, which ends the loop.
      `script` holds the responses the server gives to successive
      requests. */
  function SleepAndRetry(script: seq<HttpResponse>, retryOn: set<int>, sleepPeriod: Option<int>): (r: Run)
    ensures r.attempts <= |script|
    ensures r.outcome.StillRetrying? <==>
      r.attempts == |script| && forall i :: 0 <= i < |script| ==> script[i].status in retryOn && Classify(script[i], retryOn, sleepPeriod).Retry? && Classify(script[i], retryOn, sleepPeriod).period >= 0
    ensures r.outcome.Returned? ==>
      && r.attempts >= 1
      && r.outcome.response == script[r.attempts - 1]
      && r.outcome.response.status !in retryOn
      && !IsHttpError(r.outcome.response.status)
    // a raised error is the last response's own error, or the ValueError
    // of sleeping for the negative period it asked for
    ensures r.outcome.Raised? ==> r.attempts >= 1
    ensures r.outcome.Raised? ==>
      var last := Classify(script[r.attempts - 1], retryOn, sleepPeriod);
      last == Raise(r.outcome.error) || (last.Retry? && last.period < 0 && r.outcome.error == ValueError)
    // one sleep per retry signal, with that signal's period
    ensures |r.sleeps| == if r.outcome.StillRetrying? then r.attempts else r.attempts - 1
    ensures forall i :: 0 <= i < |r.sleeps| ==> Classify(script[i], retryOn, sleepPeriod) == Retry(r.sleeps[i]) && r.sleeps[i] >= 0
    // every request before the last one was answered with a retry status
    ensures forall i :: 0 <= i < r.attempts - 1 ==> script[i].status in retryOn
  {
    if script == [] then Run(StillRetrying, 0, [])
    else
      match Classify(script[0], retryOn, sleepPeriod)
      case Accept => Run(Returned(script[0]), 1, [])
      case Raise(e) => Run(Raised(e), 1, [])
      case Retry(p) =>
        if p < 0 then Run(Raised(ValueError), 1, [])
        else
          var rest := SleepAndRetry(script[1..], retryOn, sleepPeriod);
          Run(rest.outcome, rest.attempts + 1, [p] + rest.sleeps)
  }

  /** A negative `Retry-After` (`-` and digits of a positive number) ends
      the loop after that one request: the sleep it asks for raises
      ValueError. */
  lemma NegativeRetryAfterRaises(status: int, retryOn: set<int>, d: string, rest: seq<HttpResponse>)
    requires status in retryOn && d != [] && AllDigits(d) && DigitsValue(d) > 0
    ensures SleepAndRetry([HttpResponse(status, Some("-" + d))] + rest, retryOn, None) == Run(Raised(ValueError), 1, [])
  {
    PyIntNegated(d);
    var script := [HttpResponse(status, Some("-" + d))] + rest;
    assert script[0] == HttpResponse(status, Some("-" + d));
    assert Classify(script[0], retryOn, None) == Retry(-(DigitsValue(d) as int));
  }
}
