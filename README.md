# Python Health Monitor — a Dafny model

This project models the logic of the Python Health Monitor. The monitor probes a list of configured HTTP endpoints, retries a failed endpoint a fixed number of times with a sleep between attempts, and prints a summary of how many endpoints are healthy. The repository's commit-message hook is modelled too. Three source files are covered:

- `src/python_health_monitor/monitor.py` (module `PackagedMonitor`). `load_config` chooses between an explicit file, the default file and a hard-coded fallback. `check_url` is the retry loop, and it accepts only status 200. `main` exits on an unusable configuration, checks each endpoint that has a `url`, and builds the summary.
- `monitor.py` (module `RootMonitor`). `check_endpoint` is the same retry loop, but it accepts the endpoint's own `expected_status`, which defaults to 200. `run_health_checks` returns early when no endpoints are configured. Otherwise it checks every endpoint and builds the summary.
- `scripts/validate_commit_msg.py` (module `CommitMessage`). The message is stripped, and its first line must match `^(Action): .{1,72}$` for one of fifteen verbs. `main` turns this into exit status 0 or 1.

Shared modules:

- `Common`: `Option`, and the decimal rendering of ints used in the messages, with its round trip.
- `Probe`: the specification both retry loops are proved against. It holds the attempt outcomes and the first accepted attempt. It also holds the trace of effects, meaning the requests and the sleeps between them.
- `Report`: result records and the summary (`successful`, `total`, the all-healthy branch, the failed list).
- `MonitorConfig`: the configuration sections that are read, and the defaults timeout 5, retries 3, delay 2.

The network is an oracle. `net(j)(k)` is what attempt `k` (counted from 1) yields for the endpoint at position `j` of the configuration. It is a status code, a timeout, a connection error, another request error or any other exception. `time.sleep` and `requests.get` appear as `Sleep` and `Get` events in a trace, which the loops return beside their results. Both retry loops are imperative `method`s with loop invariants, proved against `Probe.FirstAccepted` and `Probe.Probes`. The endpoint loops of `main` and `run_health_checks` append to a result list. They are proved against recursive specifications, and lemmas about those specifications give the order and the one-record-per-endpoint properties. `load_config`, the summary and the commit-message checks are pure and are written as functions.

Behaviour of the code that the model keeps:

- The code makes exactly `retries` attempts. With `retries <= 0` it makes none and reports failure.
- There is a sleep of `delay` seconds between attempts, never after the last one.
- The sleep sits after the try/except of the retry loop. A delay that `time.sleep` refuses therefore raises out of the check after the first failed attempt. A negative delay raises ValueError, and one beyond what its nanosecond clock holds raises OverflowError. The packaged `main` catches this error per endpoint and keeps no record for that endpoint. `run_health_checks` has no handler, so the run ends there without a summary, and the top-level `main` returns 1.
- The packaged `main` ends with status 0 once it reaches the summary, even when endpoints failed.
- An endpoint without `url` is skipped in the packaged `main`. So when every endpoint lacks a `url`, the summary reads 0/0 and takes the "all endpoints are healthy" branch (`AllSkippedReportsHealthy`).

## Model

| member | source | states |
|---|---|---|
| `Common.NatToStringRoundTrip` | src/python_health_monitor/monitor.py:128 | the decimal text that f-strings give a count reads back as the same number |
| `Common.IntToStringInjective` | monitor.py:102 | different integers are rendered as different texts |
| `Probe.FirstAccepted` | monitor.py:77-83 | the result is the first attempt in the range whose response has the expected status; no earlier attempt in the range is accepted; it is None iff no attempt in the range is accepted |
| `Probe.AttemptsBounded` | src/python_health_monitor/monitor.py:103 | at most `retries` attempts are made; with `retries <= 0` none, and the check fails; with no success, exactly `retries` |
| `Probe.ProbesShape` | src/python_health_monitor/monitor.py:103-125 | n attempts give 2n-1 effects: the request of attempt k at position 2(k-1), with `Sleep(delay)` between requests and never after the last one |
| `Probe.ProbesCounts` | src/python_health_monitor/monitor.py:122-125 | n attempts make exactly n requests and n-1 sleeps |
| `Probe.OnlyAcceptanceMatters` | src/python_health_monitor/monitor.py:113-120 | every non-accepted outcome counts the same: swapping a timeout, a connection error, another exception or a wrong status for one another never changes the stopping attempt |
| `Probe.SuccessMessageOf200` | src/python_health_monitor/monitor.py:109 | the success message for status 200 is "Success: 200" |
| `Probe.FailureTextReportsRetries` | src/python_health_monitor/monitor.py:128 | the failure message, "🚫Failed after N attempts" in the packaged monitor and "Failed after N attempts" (monitor.py:102) in the top-level one, tells N and never equals a success message |
| `Probe.SleepFailsIff` | src/python_health_monitor/monitor.py:122-125 | a check raises exactly when a refused delay meets a due sleep: attempts 1..k all failed and another attempt follows. Every sleep has the same length, so only the sleep after attempt 1 can raise |
| `Probe.CheckTrace` | src/python_health_monitor/monitor.py:103-125 | the requests and sleeps of one whole check: there are none iff `retries <= 0`, and each is a request to the URL with the configured timeout or a sleep of `delay` seconds |
| `Report.CountPlusFailed` | src/python_health_monitor/monitor.py:214-224 | each record is either counted in `successful` or listed as failed: successful + len(failed) == total |
| `Report.FailedMembers` | src/python_health_monitor/monitor.py:224 | the failed list holds exactly the records with `not success` |
| `Report.FailedOfAppend` | monitor.py:145 | the failed list keeps run order: filtering distributes over concatenation |
| `Report.AllSuccessfulIff` | src/python_health_monitor/monitor.py:214-220 | `successful == total` iff every record is successful |
| `Report.CountSuccessful` | src/python_health_monitor/monitor.py:214 | the number of successful records is at most the number of records, and is 0 iff no record succeeded |
| `Report.FailedOf` | src/python_health_monitor/monitor.py:224 | the failed list is no longer than the results and holds only unsuccessful records |
| `Report.Collect` | monitor.py:127-134 | a loop that appends one record per element gives exactly one record per element, and record j is built from position j |
| `Report.Summarize` | monitor.py:137-148 | total == len(results); successful + len(failed) == total; the all-healthy branch fires iff successful == total iff the failed list is empty iff every record succeeded; the failed list is exactly the unsuccessful records |
| `MonitorConfig.SettingsOf` | src/python_health_monitor/monitor.py:160-163 | a timeout, retries or delay key that is present is used as given; a missing key, or a missing `monitor` section, takes its default 5, 3 or 2 |
| `MonitorConfig.EndpointsOf` | src/python_health_monitor/monitor.py:164 | the configured endpoint list, or the empty list when the key is missing |
| `PackagedMonitor.LoadConfig` | src/python_health_monitor/monitor.py:52-80 | `{}` for an explicit path that is not a file; the loaded map when it is non-empty; the fallback (no endpoints, timeout 5, retries 3, delay 2) when the default file is missing or empty; the result is `{}` exactly when an explicit path is not a file, or when the loaded map is empty and the path is not the default |
| `PackagedMonitor.FallbackHasNothingToCheck` | src/python_health_monitor/monitor.py:69-78 | with no file anywhere, the fallback is used, and `main` then exits with status 1 because it lists no endpoints |
| `PackagedMonitor.CheckUrl` | src/python_health_monitor/monitor.py:98-128 | raises exactly when attempt 1 fails, another attempt is due and `time.sleep` refuses the delay; then one request has been made. Otherwise it returns success iff some attempt among 1..retries answers status 200, and stops at the first such attempt. The effects are then exactly that many requests to the URL with sleeps in between, and the message is "Success: 200" or "🚫Failed after {retries} attempts" |
| `PackagedMonitor.ProcessedFollowsConfiguration` | src/python_health_monitor/monitor.py:184-210 | one record per kept endpoint, in configuration order. Record i belongs to the i-th kept position j: it is named by endpoint j's `name` or else its URL, has its URL, and carries the verdict of endpoint j's own attempts |
| `PackagedMonitor.KeptPositions` | src/python_health_monitor/monitor.py:184-210 | the positions that get a record, in increasing order: exactly those whose endpoint has a `url` and whose check does not raise |
| `PackagedMonitor.Processed` | src/python_health_monitor/monitor.py:184-210 | the records of the loop: at most one per endpoint, since an endpoint without `url` or whose check raises is skipped (`ProcessedFollowsConfiguration` says which) |
| `PackagedMonitor.RunTrace` | src/python_health_monitor/monitor.py:184-201 | the requests and sleeps of the loop, endpoint after endpoint: each is a request to a present URL with the configured timeout, or a sleep of the configured delay |
| `PackagedMonitor.ProcessOne` | src/python_health_monitor/monitor.py:185-210 | one pass of the loop body: it appends the endpoint's record exactly when the endpoint has a `url` and its check returns; its requests and sleeps are those of the check, and there are none without a `url` |
| `PackagedMonitor.ProcessEach` | src/python_health_monitor/monitor.py:184-210 | the loop keeps exactly the records of `Processed` and makes exactly the requests and sleeps of `RunTrace` |
| `PackagedMonitor.AllSkippedReportsHealthy` | src/python_health_monitor/monitor.py:184-222 | when every endpoint lacks `url`, nothing is requested, no record is kept, and the summary is 0/0 with the all-healthy branch |
| `PackagedMonitor.RunMonitor` | src/python_health_monitor/monitor.py:131-236 | exit status 1 exactly when the configuration is empty, lacks `logging.file` or `logging.level`, or lists no endpoints; otherwise status 0, with the records of the endpoint loop (checks that raise are caught and leave no record), its requests and sleeps, and their summary |
| `RootMonitor.CheckEndpoint` | monitor.py:56-102 | raises exactly when attempt 1 fails, another attempt is due and `time.sleep` refuses the delay; then one request has been made. Otherwise it returns success iff some attempt among 1..retries answers the expected status (default 200), and stops at the first such attempt. The effects are then exactly that many requests with sleeps in between, and the message is "Success: {status}" or "Failed after {retries} attempts" |
| `RootMonitor.Served` | monitor.py:71-79 | without a `url`, `requests.get(None)` raises MissingSchema, a RequestException, so no attempt gets a response; with a `url`, the network answers |
| `RootMonitor.MissingUrlFails` | monitor.py:71-94 | an endpoint without `url` never succeeds, and still makes all its attempts |
| `RootMonitor.ResultsFollowConfiguration` | monitor.py:127-134 | exactly one record per endpoint in configuration order. Record i has endpoint i's name (or else its URL), its URL, and the verdict from endpoint i's own attempts |
| `RootMonitor.Results` | monitor.py:127-134 | the records of the loop: exactly one per endpoint |
| `RootMonitor.RunTrace` | monitor.py:127-128 | the requests and sleeps of the loop, endpoint after endpoint: each is a request with the configured timeout or a sleep of the configured delay |
| `RootMonitor.FirstRaising` | monitor.py:127-128 | the first position whose check raises: it raises, no earlier one does, and there is none iff no check raises |
| `RootMonitor.CheckEach` | monitor.py:127-134 | the loop raises iff some check raises, after the requests up to and including that endpoint's and with no records; otherwise it gives one record per endpoint and the requests and sleeps of `RunTrace` |
| `RootMonitor.RunHealthChecks` | monitor.py:105-148 | with no endpoints, returns early with no request and no summary; when a check raises, ends with no summary after the requests made so far; otherwise the records and requests of the endpoint loop and their summary |
| `CommitMessage.SortedActionsAreAllowed` | scripts/validate_commit_msg.py:6-24 | the pattern's alternatives are exactly the fifteen allowed verbs |
| `CommitMessage.StripLeft` | scripts/validate_commit_msg.py:36 | only leading whitespace is removed, and the result does not start with whitespace |
| `CommitMessage.StripRight` | scripts/validate_commit_msg.py:36 | only trailing whitespace is removed, and the result does not end with whitespace |
| `CommitMessage.Strip` | scripts/validate_commit_msg.py:36 | the stripped text is empty iff the text is all whitespace; otherwise it starts and ends with a non-space character |
| `CommitMessage.FirstLine` | scripts/validate_commit_msg.py:41 | the first line is the prefix up to the first line boundary and holds no line boundary |
| `CommitMessage.MatchFirst` | scripts/validate_commit_msg.py:24 | the alternative the pattern matches with is one of those listed and matches; there is none iff no alternative matches |
| `CommitMessage.PatternMatches` | scripts/validate_commit_msg.py:42 | `PATTERN.match(first_line)` succeeds iff one of the alternatives, tried in sorted order, matches the line |
| `CommitMessage.PatternMatchesIff` | scripts/validate_commit_msg.py:24 | a line matches iff, for some allowed verb, it is that verb, ": ", then 1..72 non-newline characters (plus at most one final newline) |
| `CommitMessage.AcceptsWellFormed` | scripts/validate_commit_msg.py:6-24 | every line Action + ": " + d is accepted when Action is allowed and d has 1..72 characters and no line break |
| `CommitMessage.AcceptedIsWellFormed` | scripts/validate_commit_msg.py:24 | an accepted single line is an allowed verb, ": ", and a description of 1..72 characters |
| `CommitMessage.OnlyLeadingWordMatches` | scripts/validate_commit_msg.py:24 | on a line "word: …" only that word can match, so the sorted order of the alternation does not matter |
| `CommitMessage.RejectsUnknownVerb` | scripts/validate_commit_msg.py:6-24 | a line whose word before ": " is not an allowed verb is refused |
| `CommitMessage.RejectsOtherSpellings` | scripts/validate_commit_msg.py:6-24 | matching is exact and case-sensitive: "add", "Added", "ADD", "fix", "Fixed", "Updates" are refused |
| `CommitMessage.RejectsEmptyOrLongDescription` | scripts/validate_commit_msg.py:24 | an empty description, or one longer than 72 characters, is refused |
| `CommitMessage.ValidateCommitMessage` | scripts/validate_commit_msg.py:27-49 | exit status is 0 or 1. It is 0 iff all of these hold: there is an argument, the file exists and can be read, the stripped content is not empty, and its first line matches the pattern |
| `CommitMessage.GuardsPrecedeReading` | scripts/validate_commit_msg.py:28-34 | a missing argument or missing file gives status 1 whatever the file would contain |
| `CommitMessage.AcceptedMessageIsWellFormed` | scripts/validate_commit_msg.py:36-49 | status 0 means the stripped message's first line is an allowed verb, ": ", and 1..72 characters |
| `CommitMessage.StripIgnoresLeadingSpace` | scripts/validate_commit_msg.py:36 | stripping the left side ignores any leading whitespace and blank lines |
| `CommitMessage.StripRightKeepsPrefix` | scripts/validate_commit_msg.py:36 | trailing whitespace is only taken from the end: text before a non-space character is kept |
| `CommitMessage.LaterLinesIgnored` | scripts/validate_commit_msg.py:36-42 | for blank space, a first line, a line break and later text with something in it, the line that is checked is exactly that first line |

## Left out

- HTTP requests: `requests.get` is the oracle `Network`. The model does not tell a `RequestException` from any other exception beyond the outcome kind, because the loop treats them alike.
- `time.sleep`: a `Sleep(delay)` event in the trace, not wall-clock time. Timeouts are a kind of outcome, not elapsed time.
- Probe.SleepRaises: the bound beyond which `time.sleep` raises OverflowError is that of a 64-bit CPython on Linux. Other platforms and versions have other bounds, and so does a float delay.
- Logging and printing (`logging.*`, `print`, `setup_logging`, `find_project_root`, creating the log directory). They have no effect on results. The `name` argument of `check_url` only feeds log lines, so it is not a parameter of `CheckUrl`.
- YAML parsing (`load_yaml`) and filesystem checks: `load_config` gets them as functions (`isFile`, `loadYaml`). Paths are compared as strings, not as normalised `Path` objects.
- YAML values of unexpected types. This covers a `monitor` key set to null (the packaged `main` would exit 1 on `AttributeError`), a `name` key present with value null, a configuration that is not a map, and an endpoint entry that is not a map. The packaged `main` catches the last case with `except Exception`. The model types every value.
- RunMonitor: the log-file path resolution is not modelled, because `setup_logging` catches all its own errors. Only the presence of `logging.file` and `logging.level` decides the exit.
- `load_config` and `main` of the top-level `monitor.py`: they only read the file and map exceptions to exit status 1 around `run_health_checks`.
- `argparse` and process exit: exit statuses are values returned by `RunMonitor` and `ValidateCommitMessage`.
- ValidateCommitMessage: `Path.read_text` is a function giving the decoded text, or None when reading raises (a directory, undecodable bytes). The uncaught exception then ends the process with status 1. Universal-newline translation on reading is not modelled, because `strip` and `splitlines` treat `\r`, `\r\n` and `\n` alike.
- `health_checks.py` (a thin wrapper over `requests`) and `test_s3.py` (a cloud client script with no logic).
- Concurrent probing of endpoints: the code probes them one after another.
