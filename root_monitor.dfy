/**
 * The top-level monitor.py: `check_endpoint`, whose retry loop accepts the
 * endpoint's own `expected_status` (200 by default), and
 * `run_health_checks`, which checks every configured endpoint in order and
 * builds the summary.
 */
module RootMonitor {
  import opened Common
  import opened Probe
  import opened Report
  import opened MonitorConfig

  /** `endpoint.get('expected_status', 200)` */
  function ExpectedOf(e: EndpointConfig): int
  {
    GetOr(e.expectedStatus, DefaultExpectedStatus)
  }

  /**
   * What the attempts of an endpoint yield. Without a `url` the client is
   * called with None and raises MissingSchema, a RequestException, before
   * any network traffic.
   */
  function Served(url: Option<string>, answers: Answers): (served: Answers)
    ensures url.None? ==> forall k: nat :: !served(k).Status?
    ensures url.Some? ==> served == answers
  {
    if url.None? then (k: nat) => RequestFailed else answers
  }

  /** The attempt at which `check_endpoint` succeeds, if any. */
  function EndpointSuccess(e: EndpointConfig, answers: Answers, retries: int): Option<nat>
  {
    FirstAccepted(Served(e.url, answers), ExpectedOf(e), 1, retries)
  }

  /** "Failed after {retries} attempts" */
  function FailureMessage(retries: int): string
  {
    FailureText("Failed after ", retries)
  }

  /** `check_endpoint` ends with `time.sleep` raising. */
  predicate EndpointRaises(answers: Answers, e: EndpointConfig, s: Settings)
  {
    SleepFails(Served(e.url, answers), ExpectedOf(e), s.retries, s.delay)
  }

  /**
   * `check_endpoint(endpoint, timeout, retries, delay)`: attempts
   * 1..retries, returning at the first response whose status equals the
   * expected one; every other response and every exception is a failed
   * attempt, followed by a sleep unless it was the last one. The sleep is
   * outside the try/except, so a delay `time.sleep` refuses raises out of
   * the check.
   */
  method CheckEndpoint(endpoint: EndpointConfig, answers: Answers, timeout: int, retries: int, delay: int)
    returns (end: CheckEnd, trace: seq<Event>)
    ensures end.SleepRaised? <==> SleepFails(Served(endpoint.url, answers), ExpectedOf(endpoint), retries, delay)
    ensures end.SleepRaised? ==> trace == [Get(endpoint.url, timeout)]
    ensures end.Returned? ==>
              (end.success <==> exists k: nat :: 1 <= k <= retries && Accepted(Served(endpoint.url, answers)(k), ExpectedOf(endpoint)))
    ensures end.Returned? ==> end.success == EndpointSuccess(endpoint, answers, retries).Some?
    ensures end.Returned? ==>
              end.message == if end.success then SuccessMessage(ExpectedOf(endpoint)) else FailureMessage(retries)
    ensures end.Returned? ==>
              trace == Probes(endpoint.url, timeout, delay, AttemptsMade(EndpointSuccess(endpoint, answers, retries), retries))
  {
    var url := endpoint.url;
    var expectedStatus := GetOr(endpoint.expectedStatus, 200);
    var served := Served(url, answers);
    assert expectedStatus == ExpectedOf(endpoint);
    trace := [];
    var attempt := 1;
    while attempt <= retries
      invariant 1 <= attempt <= if retries >= 1 then retries + 1 else 1
      invariant forall i: nat :: 1 <= i < attempt ==> !Accepted(served(i), expectedStatus)
      invariant 1 < attempt && 1 < retries ==> !SleepRaises(delay)
      invariant trace == Probes(url, timeout, delay, attempt - 1) + (if 1 < attempt <= retries then [Sleep(delay)] else [])
      decreases retries - attempt
    {
      var response := served(attempt);
      trace := trace + [Get(url, timeout)];
      assert trace == Probes(url, timeout, delay, attempt);
      match response {
        case Status(code) =>
          if code == expectedStatus {
            return Returned(true, SuccessMessage(code)), trace;
          }
        case Timeout =>
        case ConnError =>
        case RequestFailed =>
        case Unexpected =>
      }
      if attempt < retries {
        if SleepRaises(delay) {
          return SleepRaised, trace;
        }
        trace := trace + [Sleep(delay)];
      }
      attempt := attempt + 1;
    }
    assert EndpointSuccess(endpoint, answers, retries).None?;
    assert attempt - 1 == AttemptsMade(None, retries);
    return Returned(false, FailureMessage(retries)), trace;
  }

  /** An endpoint without `url` never succeeds, and still makes every one of its attempts. */
  lemma MissingUrlFails(e: EndpointConfig, answers: Answers, retries: int)
    requires e.url.None?
    ensures EndpointSuccess(e, answers, retries).None?
    ensures AttemptsMade(EndpointSuccess(e, answers, retries), retries) == if retries > 0 then retries else 0
  {
  }

  /** The record appended for an endpoint: its name falls back to its URL. */
  function RecordFor(answers: Answers, e: EndpointConfig, s: Settings): EndpointResult
  {
    var ok := EndpointSuccess(e, answers, s.retries).Some?;
    EndpointResult(OrElse(e.name, e.url), e.url, ok,
                   if ok then SuccessMessage(ExpectedOf(e)) else FailureMessage(s.retries))
  }

  /** The results of the loop over `eps`: the record of each endpoint, in order. */
  function Results(net: Network, eps: seq<EndpointConfig>, s: Settings): (r: seq<EndpointResult>)
    ensures |r| == |eps|
  {
    Collect((j: nat, e: EndpointConfig) => RecordFor(net(j), e, s), eps)
  }

  /** The requests and sleeps of the loop over `eps`, endpoint after endpoint. */
  function RunTrace(net: Network, eps: seq<EndpointConfig>, s: Settings): (r: seq<Event>)
    ensures forall i :: 0 <= i < |r| ==> r[i] == Sleep(s.delay) || (r[i].Get? && r[i].timeout == s.timeout)
    decreases |eps|
  {
    if eps == [] then []
    else
      var j := |eps| - 1;
      RunTrace(net, eps[..j], s) +
        CheckTrace(eps[j].url, Served(eps[j].url, net(j)), ExpectedOf(eps[j]), s.timeout, s.retries, s.delay)
  }

  /** The first position in `eps` whose check raises, if any: the loop stops there. */
  function FirstRaising(net: Network, eps: seq<EndpointConfig>, s: Settings): (r: Option<nat>)
    ensures r.Some? ==> r.value < |eps| && EndpointRaises(net(r.value), eps[r.value], s)
    ensures r.Some? ==> forall i :: 0 <= i < r.value ==> !EndpointRaises(net(i), eps[i], s)
    ensures r.None? <==> forall i :: 0 <= i < |eps| ==> !EndpointRaises(net(i), eps[i], s)
    decreases |eps|
  {
    if eps == [] then None
    else
      var j := |eps| - 1;
      var before := FirstRaising(net, eps[..j], s);
      if before.Some? then before
      else if EndpointRaises(net(j), eps[j], s) then Some(j)
      else None
  }

  /**
   * Exactly one record per configured endpoint, in configuration order:
   * record i carries endpoint i's name (or its URL), its URL, and the verdict
   * of endpoint i's own attempts.
   */
  lemma ResultsFollowConfiguration(net: Network, eps: seq<EndpointConfig>, s: Settings)
    ensures |Results(net, eps, s)| == |eps|
    ensures forall i :: 0 <= i < |eps| ==>
              Results(net, eps, s)[i].name == OrElse(eps[i].name, eps[i].url) &&
              Results(net, eps, s)[i].url == eps[i].url &&
              Results(net, eps, s)[i].success == EndpointSuccess(eps[i], net(i), s.retries).Some?
  {
    forall i | 0 <= i < |eps|
      ensures Results(net, eps, s)[i] == RecordFor(net(i), eps[i], s)
    {
    }
  }

  /**
   * The `for endpoint in endpoints` loop of `run_health_checks`: one record
   * per endpoint, in order, until a check raises; the error then leaves the
   * loop after the requests made so far, and the records are lost with it.
   */
  method CheckEach(net: Network, endpoints: seq<EndpointConfig>, s: Settings)
    returns (results: seq<EndpointResult>, raised: bool, trace: seq<Event>)
    ensures raised <==> FirstRaising(net, endpoints, s).Some?
    ensures raised ==> results == [] && trace == RunTrace(net, endpoints[..FirstRaising(net, endpoints, s).value + 1], s)
    ensures !raised ==> results == Results(net, endpoints, s) && trace == RunTrace(net, endpoints, s)
  {
    results, trace := [], [];
    var j := 0;
    while j < |endpoints|
      invariant j <= |endpoints|
      invariant FirstRaising(net, endpoints[..j], s).None?
      invariant results == Results(net, endpoints[..j], s)
      invariant trace == RunTrace(net, endpoints[..j], s)
    {
      var endpoint := endpoints[j];
      var end, t := CheckEndpoint(endpoint, net(j), s.timeout, s.retries, s.delay);
      LoopStep(net, endpoints, s, j);
      assert t == CheckTrace(endpoint.url, Served(endpoint.url, net(j)), ExpectedOf(endpoint), s.timeout, s.retries, s.delay);
      trace := trace + t;
      match end {
        case SleepRaised =>
          FirstRaisingAt(net, endpoints, s, j);
          return [], true, trace;
        case Returned(success, message) =>
          assert EndpointResult(OrElse(endpoint.name, endpoint.url), endpoint.url, success, message) == RecordFor(net(j), endpoint, s);
          results := results + [EndpointResult(OrElse(endpoint.name, endpoint.url), endpoint.url, success, message)];
      }
      j := j + 1;
    }
    assert endpoints[..j] == endpoints;
    raised := false;
  }

  /**
   * `run_health_checks(config)`: with no endpoints it returns early without
   * checking anything; otherwise it checks every endpoint in order, appends
   * one record each and builds the summary. When a check raises, the error
   * leaves `run_health_checks` with no summary, after the requests made so
   * far; the top-level `main` then returns status 1.
   */
  method RunHealthChecks(config: Config, net: Network)
    returns (summary: Option<Summary>, results: seq<EndpointResult>, raised: bool, trace: seq<Event>)
    ensures var eps, s := EndpointsOf(config), SettingsOf(config.monitor);
            raised <==> FirstRaising(net, eps, s).Some?
    ensures var eps, s := EndpointsOf(config), SettingsOf(config.monitor);
            raised ==> summary.None? && results == [] &&
                       trace == RunTrace(net, eps[..FirstRaising(net, eps, s).value + 1], s)
    ensures summary.None? <==> EndpointsOf(config) == [] || raised
    ensures EndpointsOf(config) == [] ==> results == [] && trace == []
    ensures summary.Some? ==>
              var s := SettingsOf(config.monitor);
              results == Results(net, EndpointsOf(config), s) &&
              trace == RunTrace(net, EndpointsOf(config), s) &&
              summary.value == Summarize(results)
  {
    var endpoints := EndpointsOf(config);
    if endpoints == [] {
      return None, [], false, [];
    }
    var s := SettingsOf(config.monitor);
    results, raised, trace := CheckEach(net, endpoints, s);
    if raised {
      return None, [], true, trace;
    }
    summary := Some(Summarize(results));
  }

  /** One more endpoint extends the results and the trace of the loop by its own. */
  lemma LoopStep(net: Network, eps: seq<EndpointConfig>, s: Settings, j: nat)
    requires j < |eps|
    ensures Results(net, eps[..j + 1], s) == Results(net, eps[..j], s) + [RecordFor(net(j), eps[j], s)]
    ensures RunTrace(net, eps[..j + 1], s) ==
              RunTrace(net, eps[..j], s) +
              CheckTrace(eps[j].url, Served(eps[j].url, net(j)), ExpectedOf(eps[j]), s.timeout, s.retries, s.delay)
    ensures FirstRaising(net, eps[..j + 1], s) ==
              if FirstRaising(net, eps[..j], s).Some? then FirstRaising(net, eps[..j], s)
              else if EndpointRaises(net(j), eps[j], s) then Some(j)
              else None
  {
    assert eps[..j + 1][..j] == eps[..j];
  }

  /** The first raising position is the one before which no check raises and at which one does. */
  lemma FirstRaisingAt(net: Network, eps: seq<EndpointConfig>, s: Settings, j: nat)
    requires j < |eps| && EndpointRaises(net(j), eps[j], s)
    requires FirstRaising(net, eps[..j], s).None?
    ensures FirstRaising(net, eps, s) == Some(j)
  {
    assert forall i :: 0 <= i < j ==> eps[..j][i] == eps[i];
  }
}
