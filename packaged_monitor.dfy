/**
 * The packaged monitor, src/python_health_monitor/monitor.py: choosing the
 * configuration (`load_config`), checking one URL with retries
 * (`check_url`, which accepts only status 200), and `main`'s pass over the
 * configured endpoints with its summary and exit decisions.
 */
module PackagedMonitor {
  import opened Common
  import opened Probe
  import opened Report
  import opened MonitorConfig

  // ---------------------------------------------------------------------
  // Choosing the configuration
  // ---------------------------------------------------------------------

  /**
   * What `load_config` learns from the filesystem: the default path, which
   * paths are regular files, what `load_yaml` yields for a path (`{}` when
   * the file is missing or is not valid YAML), and the fallback log file.
   */
  datatype Files = Files(
    defaultPath: string,
    isFile: string -> bool,
    loadYaml: string -> Config,
    fallbackLogFile: string)

  /** `if config_file`: a path was given and it is not the empty string. */
  predicate Given(configFile: Option<string>)
  {
    configFile.Some? && configFile.value != ""
  }

  /** `Path(config_file) if config_file else DEFAULT_CONFIG_PATH` */
  function ChosenPath(configFile: Option<string>, fs: Files): string
  {
    if Given(configFile) then configFile.value else fs.defaultPath
  }

  /** The hard-coded configuration used when the default file is missing or empty. */
  function Fallback(fallbackLogFile: string): Config
  {
    Config(
      Some(LoggingSection(Some(fallbackLogFile), Some("INFO"))),
      Some(MonitorSection(Some(5), Some(3), Some(2))),
      Some([]),
      {})
  }

  function LoadConfig(configFile: Option<string>, fs: Files): (c: Config)
    // an explicit path that is not a file yields {}
    ensures Given(configFile) && !fs.isFile(configFile.value) ==> c.IsEmpty()
    // otherwise a non-empty loaded map is used as it is
    ensures (!Given(configFile) || fs.isFile(configFile.value)) && !fs.loadYaml(ChosenPath(configFile, fs)).IsEmpty() ==>
              c == fs.loadYaml(ChosenPath(configFile, fs))
    // a missing or empty default file yields the fallback
    ensures !Given(configFile) && fs.loadYaml(fs.defaultPath).IsEmpty() ==>
              c == Fallback(fs.fallbackLogFile) && EndpointsOf(c) == [] && SettingsOf(c.monitor) == Settings(5, 3, 2)
    // the result is {} exactly in the two cases without a usable map
    ensures c.IsEmpty() <==>
              (Given(configFile) && !fs.isFile(configFile.value)) ||
              (fs.loadYaml(ChosenPath(configFile, fs)).IsEmpty() && ChosenPath(configFile, fs) != fs.defaultPath)
    ensures !c.IsEmpty() ==> c == fs.loadYaml(ChosenPath(configFile, fs)) || c == Fallback(fs.fallbackLogFile)
  {
    var path := ChosenPath(configFile, fs);
    if Given(configFile) && !fs.isFile(path) then
      EmptyConfig
    else
      var config := fs.loadYaml(path);
      if !config.IsEmpty() then config
      else if path == fs.defaultPath then Fallback(fs.fallbackLogFile)
      else EmptyConfig
  }

  // ---------------------------------------------------------------------
  // Checking one URL
  // ---------------------------------------------------------------------

  const ExpectedStatus := 200

  /** "🚫Failed after {retries} attempts" */
  function FailureMessage(retries: int): string
  {
    FailureText("\U{1F6AB}Failed after ", retries)
  }

  /** The attempt at which `check_url` succeeds, if any. */
  function UrlSuccess(answers: Answers, retries: int): Option<nat>
  {
    FirstAccepted(answers, ExpectedStatus, 1, retries)
  }

  /** `check_url` ends with `time.sleep` raising. */
  predicate UrlRaises(answers: Answers, s: Settings)
  {
    SleepFails(answers, ExpectedStatus, s.retries, s.delay)
  }

  /**
   * `check_url(url, name, timeout, retries, delay)`: attempts 1..retries,
   * returning at the first response with status 200; every other response
   * and every exception is a failed attempt, followed by a sleep unless it
   * was the last one. The sleep is outside the try/except, so a delay
   * `time.sleep` refuses raises out of the check.
   */
  method CheckUrl(answers: Answers, url: string, timeout: int, retries: int, delay: int)
    returns (end: CheckEnd, trace: seq<Event>)
    ensures end.SleepRaised? <==> SleepFails(answers, ExpectedStatus, retries, delay)
    ensures end.SleepRaised? ==> trace == [Get(Some(url), timeout)]
    ensures end.Returned? ==>
              (end.success <==> exists k: nat :: 1 <= k <= retries && Accepted(answers(k), ExpectedStatus))
    ensures end.Returned? ==> end.success == UrlSuccess(answers, retries).Some?
    ensures end.Returned? ==>
              end.message == if end.success then SuccessMessage(ExpectedStatus) else FailureMessage(retries)
    ensures end.Returned? ==>
              trace == Probes(Some(url), timeout, delay, AttemptsMade(UrlSuccess(answers, retries), retries))
  {
    trace := [];
    var attempt := 1;
    while attempt <= retries
      invariant 1 <= attempt <= if retries >= 1 then retries + 1 else 1
      invariant forall i: nat :: 1 <= i < attempt ==> !Accepted(answers(i), ExpectedStatus)
      invariant 1 < attempt && 1 < retries ==> !SleepRaises(delay)
      invariant trace == Probes(Some(url), timeout, delay, attempt - 1) + (if 1 < attempt <= retries then [Sleep(delay)] else [])
      decreases retries - attempt
    {
      var response := answers(attempt);
      trace := trace + [Get(Some(url), timeout)];
      assert trace == Probes(Some(url), timeout, delay, attempt);
      match response {
        case Status(code) =>
          if code == ExpectedStatus {
            return Returned(true, SuccessMessage(code)), trace;
          }
        case Timeout =>
        case ConnError =>
        case RequestFailed =>
        case Unexpected =>
      }
      if attempt < retries {
        if SleepRaises(delay) {
          return SleepRaised, trace;
        }
        trace := trace + [Sleep(delay)];
      }
      attempt := attempt + 1;
    }
    assert UrlSuccess(answers, retries).None?;
    assert attempt - 1 == AttemptsMade(None, retries);
    return Returned(false, FailureMessage(retries)), trace;
  }

  // ---------------------------------------------------------------------
  // The pass over the endpoints
  // ---------------------------------------------------------------------

  /** The record `main` appends for an endpoint that has a `url` and whose check returns. */
  function RecordFor(answers: Answers, e: EndpointConfig, s: Settings): EndpointResult
    requires e.url.Some?
  {
    var ok := UrlSuccess(answers, s.retries).Some?;
    EndpointResult(Some(GetOr(e.name, e.url.value)), e.url, ok,
                   if ok then SuccessMessage(ExpectedStatus) else FailureMessage(s.retries))
  }

  /**
   * `main` appends a record for the endpoint: it has a `url` (otherwise
   * KeyError) and its check returns (otherwise the error from `time.sleep`
   * is caught by `except Exception`).
   */
  predicate Kept(answers: Answers, e: EndpointConfig, s: Settings)
  {
    e.url.Some? && !UrlRaises(answers, s)
  }

  /** The results of the loop over `eps`: only kept endpoints add a record. */
  function Processed(net: Network, eps: seq<EndpointConfig>, s: Settings): (r: seq<EndpointResult>)
    ensures |r| <= |eps|
    decreases |eps|
  {
    if eps == [] then []
    else
      var j := |eps| - 1;
      var before := Processed(net, eps[..j], s);
      if Kept(net(j), eps[j], s) then before + [RecordFor(net(j), eps[j], s)] else before
  }

  /** The requests and sleeps of the loop over `eps`, endpoint after endpoint. */
  function RunTrace(net: Network, eps: seq<EndpointConfig>, s: Settings): (r: seq<Event>)
    ensures forall i :: 0 <= i < |r| ==>
              r[i] == Sleep(s.delay) || (r[i].Get? && r[i].url.Some? && r[i].timeout == s.timeout)
    decreases |eps|
  {
    if eps == [] then []
    else
      var j := |eps| - 1;
      var before := RunTrace(net, eps[..j], s);
      if eps[j].url.None? then before
      else before + CheckTrace(eps[j].url, net(j), ExpectedStatus, s.timeout, s.retries, s.delay)
  }

  /** The configuration positions of the kept endpoints, in increasing order. */
  function KeptPositions(net: Network, eps: seq<EndpointConfig>, s: Settings): (r: seq<nat>)
    ensures forall i :: 0 <= i < |r| ==> r[i] < |eps| && Kept(net(r[i]), eps[r[i]], s)
    ensures forall a, b :: 0 <= a < b < |r| ==> r[a] < r[b]
    ensures forall j: nat :: j < |eps| && Kept(net(j), eps[j], s) ==> j in r
    decreases |eps|
  {
    if eps == [] then []
    else
      var j := |eps| - 1;
      KeptPositions(net, eps[..j], s) + (if Kept(net(j), eps[j], s) then [j] else [])
  }

  /**
   * One record per kept endpoint, in configuration order: record i belongs
   * to the i-th kept position j, is named by endpoint j's `name` or else its
   * URL, and carries the verdict of endpoint j's own attempts.
   */
  lemma {:induction false} ProcessedFollowsConfiguration(net: Network, eps: seq<EndpointConfig>, s: Settings)
    ensures |Processed(net, eps, s)| == |KeptPositions(net, eps, s)|
    ensures forall i :: 0 <= i < |Processed(net, eps, s)| ==>
              var j := KeptPositions(net, eps, s)[i];
              Processed(net, eps, s)[i] == RecordFor(net(j), eps[j], s)
    ensures forall i :: 0 <= i < |Processed(net, eps, s)| ==>
              var j := KeptPositions(net, eps, s)[i];
              Processed(net, eps, s)[i].url == eps[j].url &&
              Processed(net, eps, s)[i].name == Some(GetOr(eps[j].name, eps[j].url.value)) &&
              Processed(net, eps, s)[i].success == UrlSuccess(net(j), s.retries).Some?
    decreases |eps|
  {
    if eps != [] {
      var n := |eps| - 1;
      ProcessedFollowsConfiguration(net, eps[..n], s);
      var ps, ks := Processed(net, eps[..n], s), KeptPositions(net, eps[..n], s);
      var p, k := Processed(net, eps, s), KeptPositions(net, eps, s);
      if Kept(net(n), eps[n], s) {
        assert p == ps + [RecordFor(net(n), eps[n], s)] && k == ks + [n];
      } else {
        assert p == ps && k == ks;
      }
      forall i | 0 <= i < |p|
        ensures p[i] == RecordFor(net(k[i]), eps[k[i]], s)
      {
        if i < |ps| {
          assert p[i] == ps[i] && k[i] == ks[i];
          assert eps[..n][ks[i]] == eps[ks[i]];
        }
      }
    }
  }

  /**
   * When every endpoint lacks a `url`, nothing is checked, no result is
   * recorded and the summary reports 0/0 and takes the "all endpoints are
   * healthy" branch.
   */
  lemma {:induction false} AllSkippedReportsHealthy(net: Network, eps: seq<EndpointConfig>, s: Settings)
    requires forall i :: 0 <= i < |eps| ==> eps[i].url.None?
    ensures Processed(net, eps, s) == [] && RunTrace(net, eps, s) == []
    ensures Summarize(Processed(net, eps, s)).allHealthy && Summarize(Processed(net, eps, s)).total == 0
    decreases |eps|
  {
    if eps != [] {
      AllSkippedReportsHealthy(net, eps[..|eps| - 1], s);
    }
  }

  // ---------------------------------------------------------------------
  // main
  // ---------------------------------------------------------------------

  /** `config['logging']['file']` and `config['logging']['level']` are both present. */
  predicate LoggingConfigured(c: Config)
  {
    c.logging.Some? && c.logging.value.file.Some? && c.logging.value.level.Some?
  }

  /** `main` calls exit(1) before checking anything for this configuration. */
  predicate Refused(c: Config)
  {
    c.IsEmpty() || !LoggingConfigured(c) || EndpointsOf(c) == []
  }

  /**
   * `main(args)`: exit status 1 when the configuration is empty, lacks a
   * logging key or lists no endpoints; otherwise every endpoint with a `url`
   * is checked in order, those whose check returns are recorded, the summary
   * is built and the process ends with status 0, whatever the endpoints'
   * health.
   */
  method RunMonitor(configFile: Option<string>, fs: Files, net: Network)
    returns (code: int, results: seq<EndpointResult>, summary: Option<Summary>, trace: seq<Event>)
    ensures code == 0 || code == 1
    ensures code == 1 <==> Refused(LoadConfig(configFile, fs))
    ensures code == 1 ==> results == [] && summary.None? && trace == []
    ensures code == 0 ==>
              var c := LoadConfig(configFile, fs);
              results == Processed(net, EndpointsOf(c), SettingsOf(c.monitor)) &&
              trace == RunTrace(net, EndpointsOf(c), SettingsOf(c.monitor)) &&
              summary == Some(Summarize(results))
  {
    var config := LoadConfig(configFile, fs);
    if config.IsEmpty() {
      return 1, [], None, [];
    }
    if !LoggingConfigured(config) {
      return 1, [], None, [];
    }
    var s := SettingsOf(config.monitor);
    var endpoints := EndpointsOf(config);
    if endpoints == [] {
      return 1, [], None, [];
    }

    results, trace := ProcessEach(net, endpoints, s);
    summary := Some(Summarize(results));
    code := 0;
  }

  /**
   * The `for endpoint in endpoints` loop of `main`: an endpoint without
   * `url` raises KeyError, and one whose check raises is caught by
   * `except Exception`; both are reported and add no record.
   */
  method ProcessEach(net: Network, endpoints: seq<EndpointConfig>, s: Settings)
    returns (results: seq<EndpointResult>, trace: seq<Event>)
    ensures results == Processed(net, endpoints, s)
    ensures trace == RunTrace(net, endpoints, s)
  {
    results, trace := [], [];
    for j := 0 to |endpoints|
      invariant results == Processed(net, endpoints[..j], s)
      invariant trace == RunTrace(net, endpoints[..j], s)
    {
      var added, t := ProcessOne(net(j), endpoints[j], s);
      LoopStep(net, endpoints, s, j, added, t);
      results, trace := results + added, trace + t;
    }
    assert endpoints[..|endpoints|] == endpoints;
  }

  /** One pass of the loop body: the record it appends, if any, and its requests and sleeps. */
  method ProcessOne(answers: Answers, endpoint: EndpointConfig, s: Settings)
    returns (added: seq<EndpointResult>, trace: seq<Event>)
    ensures added == if Kept(answers, endpoint, s) then [RecordFor(answers, endpoint, s)] else []
    ensures trace == if endpoint.url.None? then []
                     else CheckTrace(endpoint.url, answers, ExpectedStatus, s.timeout, s.retries, s.delay)
  {
    added, trace := [], [];
    match endpoint.url {
      case None =>
        // endpoint["url"] raises KeyError: reported, nothing appended
      case Some(url) =>
        var name := GetOr(endpoint.name, url);
        var end;
        end, trace := CheckUrl(answers, url, s.timeout, s.retries, s.delay);
        match end {
          case Returned(ok, info) =>
            added := [EndpointResult(Some(name), Some(url), ok, info)];
          case SleepRaised =>
            // caught by `except Exception`: reported, nothing appended
        }
    }
  }

  /** One more endpoint extends the results and the trace of the loop by its own. */
  lemma LoopStep(net: Network, eps: seq<EndpointConfig>, s: Settings, j: nat,
                 added: seq<EndpointResult>, t: seq<Event>)
    requires j < |eps|
    requires added == if Kept(net(j), eps[j], s) then [RecordFor(net(j), eps[j], s)] else []
    requires t == if eps[j].url.None? then []
                  else CheckTrace(eps[j].url, net(j), ExpectedStatus, s.timeout, s.retries, s.delay)
    ensures Processed(net, eps[..j + 1], s) == Processed(net, eps[..j], s) + added
    ensures RunTrace(net, eps[..j + 1], s) == RunTrace(net, eps[..j], s) + t
  {
    assert eps[..j + 1][..j] == eps[..j];
  }

  /** With no file anywhere, the fallback configuration lists no endpoints, so `main` exits with status 1. */
  lemma FallbackHasNothingToCheck(fs: Files)
    requires fs.loadYaml(fs.defaultPath).IsEmpty()
    ensures LoadConfig(None, fs) == Fallback(fs.fallbackLogFile)
    ensures Refused(LoadConfig(None, fs))
  {
  }
}
