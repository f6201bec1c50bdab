/**
 * The per-endpoint result records and the run summary both monitors print:
 * how many endpoints are healthy, how many were checked, and which failed.
 */
module Report {
  import opened Common

  /** The record `{'name', 'url', 'success', 'message'}` appended once per checked endpoint. */
  datatype EndpointResult = EndpointResult(name: Option<string>, url: Option<string>, success: bool, message: string)

  /**
   * The summary: `successful`, `total`, whether the "all endpoints are
   * healthy" branch is taken, and the list of failed records it prints
   * otherwise (empty when that branch is taken).
   */
  datatype Summary = Summary(successful: nat, total: nat, allHealthy: bool, failed: seq<EndpointResult>)

  /**
   * The records of a loop that appends `record(j, xs[j])` for every
   * position j in turn: one record per element, in order.
   */
  function Collect<X>(record: (nat, X) -> EndpointResult, xs: seq<X>): (r: seq<EndpointResult>)
    ensures |r| == |xs|
    ensures forall j :: 0 <= j < |xs| ==> r[j] == record(j, xs[j])
    decreases |xs|
  {
    if xs == [] then []
    else
      var n := |xs| - 1;
      Collect(record, xs[..n]) + [record(n, xs[n])]
  }

  /** `sum(1 for r in results if r['success'])` */
  function CountSuccessful(rs: seq<EndpointResult>): (n: nat)
    ensures n <= |rs|
    ensures n == 0 <==> forall i :: 0 <= i < |rs| ==> !rs[i].success
    decreases |rs|
  {
    if rs == [] then 0 else (if rs[0].success then 1 else 0) + CountSuccessful(rs[1..])
  }

  /** `[r for r in results if not r['success']]` */
  function FailedOf(rs: seq<EndpointResult>): (r: seq<EndpointResult>)
    ensures |r| <= |rs|
    ensures forall i :: 0 <= i < |r| ==> !r[i].success
    decreases |rs|
  {
    if rs == [] then [] else (if rs[0].success then [] else [rs[0]]) + FailedOf(rs[1..])
  }

  /** Every record is either counted as successful or listed as failed. */
  lemma {:induction false} CountPlusFailed(rs: seq<EndpointResult>)
    ensures CountSuccessful(rs) + |FailedOf(rs)| == |rs|
    decreases |rs|
  {
    if rs != [] {
      CountPlusFailed(rs[1..]);
    }
  }

  /** The failed list holds exactly the unsuccessful records. */
  lemma {:induction false} FailedMembers(rs: seq<EndpointResult>)
    ensures forall r :: r in FailedOf(rs) <==> r in rs && !r.success
    decreases |rs|
  {
    if rs != [] {
      FailedMembers(rs[1..]);
      assert rs == [rs[0]] + rs[1..];
    }
  }

  /** The failed list keeps the run order: filtering distributes over concatenation. */
  lemma {:induction false} FailedOfAppend(a: seq<EndpointResult>, b: seq<EndpointResult>)
    ensures FailedOf(a + b) == FailedOf(a) + FailedOf(b)
    decreases |a|
  {
    if a != [] {
      assert (a + b)[1..] == a[1..] + b;
      FailedOfAppend(a[1..], b);
    } else {
      assert a + b == b;
    }
  }

  /** All records are successful exactly when the count reaches the total. */
  lemma {:induction false} AllSuccessfulIff(rs: seq<EndpointResult>)
    ensures CountSuccessful(rs) == |rs| <==> forall i :: 0 <= i < |rs| ==> rs[i].success
    decreases |rs|
  {
    if rs != [] {
      AllSuccessfulIff(rs[1..]);
      CountPlusFailed(rs[1..]);
      assert forall i :: 1 <= i < |rs| ==> rs[i] == rs[1..][i - 1];
    }
  }

  /** The summary report of a run over `results`, in run order. */
  function Summarize(results: seq<EndpointResult>): (s: Summary)
    ensures s.total == |results|
    ensures s.successful + |s.failed| == s.total
    ensures s.allHealthy <==> s.successful == s.total
    ensures s.allHealthy <==> s.failed == []
    ensures s.allHealthy <==> forall i :: 0 <= i < |results| ==> results[i].success
    ensures forall r :: r in s.failed <==> r in results && !r.success
  {
    CountPlusFailed(results);
    FailedMembers(results);
    AllSuccessfulIff(results);
    var successful := CountSuccessful(results);
    var total := |results|;
    Summary(successful, total, successful == total, FailedOf(results))
  }
}
