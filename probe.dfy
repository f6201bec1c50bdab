/**
 * The specification of one endpoint check, shared by the packaged
 * `check_url` and the top-level `check_endpoint`: what one HTTP attempt can
 * yield, the observable effects of a check (requests and the sleeps between
 * them), the attempt at which a check stops, and the messages it returns.
 *
 * The network is an oracle: `answers(k)` is what attempt k (counted from 1)
 * yields, and `net(j)` gives the answers for the endpoint at position j of
 * the configuration.
 */
module Probe {
  import opened Common

  /** One call of the HTTP client: a response, or one of the exceptions the retry loop catches. */
  datatype Outcome =
    | Status(code: int)  // a response with this status code
    | Timeout            // requests.exceptions.Timeout
    | ConnError          // requests.exceptions.ConnectionError
    | RequestFailed      // any other requests.exceptions.RequestException
    | Unexpected         // any other Exception

  /** The observable effects of a check, in order. */
  datatype Event =
    | Get(url: Option<string>, timeout: int)  // requests.get(url, timeout=timeout)
    | Sleep(seconds: int)                     // time.sleep(delay)

  type Answers = nat -> Outcome

  type Network = nat -> Answers

  const DefaultExpectedStatus := 200

  /** The attempt counts as a success: a response whose status is the expected one. */
  predicate Accepted(o: Outcome, expected: int)
  {
    o.Status? && o.code == expected
  }

  /**
   * The first attempt in k..last whose answer is accepted, if any: the
   * attempt at which the retry loop returns success.
   */
  function FirstAccepted(answers: Answers, expected: int, k: nat, last: int): (r: Option<nat>)
    ensures r.Some? ==> k <= r.value <= last && Accepted(answers(r.value), expected)
    ensures r.Some? ==> forall i: nat :: k <= i < r.value ==> !Accepted(answers(i), expected)
    ensures r.None? <==> forall i: nat :: k <= i <= last ==> !Accepted(answers(i), expected)
    decreases last - k + 1
  {
    if k > last then None
    else if Accepted(answers(k), expected) then Some(k)
    else FirstAccepted(answers, expected, k + 1, last)
  }

  /** How many requests a check makes: up to the accepted attempt, or all `retries` of them. */
  function AttemptsMade(first: Option<nat>, retries: int): nat
  {
    match first
    case Some(k) => k
    case None => if retries > 0 then retries else 0
  }

  /** The effects of n attempts: a request per attempt, a sleep between two consecutive ones. */
  function Probes(url: Option<string>, timeout: int, delay: int, n: nat): seq<Event>
    decreases n
  {
    if n == 0 then []
    else if n == 1 then [Get(url, timeout)]
    else Probes(url, timeout, delay, n - 1) + [Sleep(delay), Get(url, timeout)]
  }

  function CountRequests(t: seq<Event>): nat
    decreases |t|
  {
    if t == [] then 0 else CountRequests(t[..|t| - 1]) + (if t[|t| - 1].Get? then 1 else 0)
  }

  function CountSleeps(t: seq<Event>): nat
    decreases |t|
  {
    if t == [] then 0 else CountSleeps(t[..|t| - 1]) + (if t[|t| - 1].Sleep? then 1 else 0)
  }

  /**
   * The shape of n attempts: requests at the even positions (the request of
   * attempt k at position 2(k-1)), sleeps of `delay` at the odd ones, and a
   * request last, so there is never a sleep after the final attempt.
   */
  lemma {:induction false} ProbesShape(url: Option<string>, timeout: int, delay: int, n: nat)
    ensures n == 0 ==> Probes(url, timeout, delay, n) == []
    ensures n > 0 ==> |Probes(url, timeout, delay, n)| == 2 * n - 1
    ensures forall i :: 0 <= i < |Probes(url, timeout, delay, n)| ==>
              Probes(url, timeout, delay, n)[i] == if i % 2 == 0 then Get(url, timeout) else Sleep(delay)
    decreases n
  {
    if n > 1 {
      ProbesShape(url, timeout, delay, n - 1);
    }
  }

  /** n attempts make exactly n requests and n - 1 sleeps. */
  lemma {:induction false} ProbesCounts(url: Option<string>, timeout: int, delay: int, n: nat)
    ensures CountRequests(Probes(url, timeout, delay, n)) == n
    ensures CountSleeps(Probes(url, timeout, delay, n)) == if n == 0 then 0 else n - 1
    decreases n
  {
    if n == 1 {
      var t := Probes(url, timeout, delay, 1);
      assert t[..0] == [];
    } else if n > 1 {
      var p := Probes(url, timeout, delay, n - 1);
      var t := Probes(url, timeout, delay, n);
      assert t[..|t| - 1] == p + [Sleep(delay)];
      assert (p + [Sleep(delay)])[..|p|] == p;
      ProbesCounts(url, timeout, delay, n - 1);
    }
  }

  /**
   * Exceptions are absorbed alike: the stopping attempt depends only on
   * which answers are accepted, so exchanging one failure kind for another
   * (a timeout for a connection error, a wrong status for an exception)
   * changes nothing.
   */
  lemma {:induction false} OnlyAcceptanceMatters(a1: Answers, a2: Answers, expected: int, k: nat, last: int)
    requires forall i: nat :: k <= i <= last ==> (Accepted(a1(i), expected) <==> Accepted(a2(i), expected))
    ensures FirstAccepted(a1, expected, k, last) == FirstAccepted(a2, expected, k, last)
    decreases last - k + 1
  {
    if k <= last && !Accepted(a1(k), expected) {
      OnlyAcceptanceMatters(a1, a2, expected, k + 1, last);
    }
  }

  /**
   * The longest sleep, in whole seconds, that `time.sleep` accepts on a
   * 64-bit CPython: its clock counts nanoseconds in a signed 64-bit integer.
   */
  const MaxSleepSeconds := 9223372036

  /**
   * `time.sleep(seconds)` raises: ValueError for a negative length,
   * OverflowError for one its clock cannot hold.
   */
  predicate SleepRaises(seconds: int)
  {
    seconds < 0 || seconds > MaxSleepSeconds
  }

  /**
   * The sleep between attempts sits outside the try/except of the retry
   * loop, so a delay that `time.sleep` refuses ends the check by raising.
   * The first sleep is due after attempt 1 when it failed and another
   * attempt follows.
   */
  predicate SleepFails(answers: Answers, expected: int, retries: int, delay: int)
  {
    SleepRaises(delay) && retries >= 2 && !Accepted(answers(1), expected)
  }

  /**
   * A check raises exactly when some sleep is due with a refused delay:
   * attempts 1..k all failed and another attempt follows. Since every
   * sleep has the same length, only the first one can be reached.
   */
  lemma SleepFailsIff(answers: Answers, expected: int, retries: int, delay: int)
    ensures SleepFails(answers, expected, retries, delay) <==>
              SleepRaises(delay) &&
              exists k: nat :: 1 <= k < retries && FirstAccepted(answers, expected, 1, k).None?
  {
    if SleepFails(answers, expected, retries, delay) {
      assert FirstAccepted(answers, expected, 1, 1).None?;
    }
  }

  /** How a check ends: it returns `(success, message)`, or `time.sleep` raises out of it. */
  datatype CheckEnd = Returned(success: bool, message: string) | SleepRaised

  /**
   * The requests and sleeps of a whole check: those up to its return, or
   * the single request made before the sleep that raises.
   */
  function CheckTrace(url: Option<string>, answers: Answers, expected: int, timeout: int, retries: int, delay: int): (t: seq<Event>)
    ensures retries <= 0 <==> t == []
    ensures forall i :: 0 <= i < |t| ==> t[i] == Get(url, timeout) || t[i] == Sleep(delay)
  {
    var n := if SleepFails(answers, expected, retries, delay) then 1
             else AttemptsMade(FirstAccepted(answers, expected, 1, retries), retries);
    AttemptsBounded(answers, expected, retries);
    ProbesShape(url, timeout, delay, n);
    Probes(url, timeout, delay, n)
  }

  /** "Success: {status_code}": the message of a successful check. */
  function SuccessMessage(code: int): string
  {
    "Success: " + IntToString(code)
  }

  /** The message the tests look for on success. */
  lemma SuccessMessageOf200()
    ensures SuccessMessage(DefaultExpectedStatus) == "Success: 200"
  {
    assert NatToString(200) == NatToString(20) + ['0'] == NatToString(2) + ['0'] + ['0'];
  }

  /** A number framed by fixed text can be read back: messages that differ only in the number differ. */
  lemma FramedNumberInjective(prefix: string, suffix: string, a: int, b: int)
    requires prefix + IntToString(a) + suffix == prefix + IntToString(b) + suffix
    ensures a == b
  {
    var m := prefix + IntToString(a) + suffix;
    assert |IntToString(a)| == |IntToString(b)|;
    assert IntToString(a) == m[|prefix|..|prefix| + |IntToString(a)|] == IntToString(b);
    IntToStringInjective(a, b);
  }

  /** "{prefix}{retries} attempts": the failure message, after the prefix each monitor puts first. */
  function FailureText(prefix: string, retries: int): string
  {
    prefix + IntToString(retries) + " attempts"
  }

  /**
   * The failure message tells the number of attempts, and never reads as a
   * success message when its prefix does not start as "Success: " does.
   */
  lemma FailureTextReportsRetries(prefix: string, a: int, b: int, code: int)
    requires prefix != [] && prefix[0] != 'S'
    ensures FailureText(prefix, a) == FailureText(prefix, b) ==> a == b
    ensures FailureText(prefix, a) != SuccessMessage(code)
  {
    if FailureText(prefix, a) == FailureText(prefix, b) {
      FramedNumberInjective(prefix, " attempts", a, b);
    }
    assert FailureText(prefix, a)[0] != SuccessMessage(code)[0];
  }

  /**
   * The number of attempts is bounded by `retries` (and is 0 when
   * `retries <= 0`); all `retries` are made when none succeeds.
   */
  lemma AttemptsBounded(answers: Answers, expected: int, retries: int)
    ensures AttemptsMade(FirstAccepted(answers, expected, 1, retries), retries) <= if retries > 0 then retries else 0
    ensures retries <= 0 ==> FirstAccepted(answers, expected, 1, retries).None?
    ensures FirstAccepted(answers, expected, 1, retries).None? ==>
              AttemptsMade(FirstAccepted(answers, expected, 1, retries), retries) == if retries > 0 then retries else 0
  {
  }
}
