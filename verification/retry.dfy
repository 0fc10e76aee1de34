/**
 * The bounded retry loop the home and all-food pages run on mount: up to
 * five requests, stopping at the first status-200 response, with a fixed
 * wait after every failure that is not the last.
 *
 * The network is a sequence of outcomes, one per request in the order the
 * requests are issued; timers are recorded as `Sleep` events instead of
 * being waited out. When the sequence runs out before the loop ends, the
 * state is the one observed while the next request is still in flight.
 */
module Retry {
  import opened Http
  import opened Catalog

  const MaxRetries: nat := 5
  const RetryDelayMs: nat := 3000

  type Response = Outcome<seq<Category>>

  /** What the loop did, in order: a request with its outcome, or a wait. */
  datatype Event = Request(outcome: Response) | Sleep(ms: nat)

  /** Still trying, stopped on a 200 response, or stopped after the last failure. */
  datatype Verdict = Pending | Loaded(data: seq<Category>) | Exhausted

  datatype Loop = Loop(retryCount: nat, trace: seq<Event>, verdict: Verdict)

  const Start := Loop(0, [], Pending)

  /** One pass of the loop body, driven by the outcome of its request. */
  function Step(l: Loop, o: Response): Loop {
    if !l.verdict.Pending? then l
    else if Is200(o) then Loop(l.retryCount, l.trace + [Request(o)], Loaded(o.data))
    else if l.retryCount + 1 == MaxRetries then Loop(l.retryCount + 1, l.trace + [Request(o)], Exhausted)
    else Loop(l.retryCount + 1, l.trace + [Request(o), Sleep(RetryDelayMs)], Pending)
  }

  /** The loop after the given outcomes have arrived. */
  function Run(outcomes: seq<Response>): Loop
    decreases |outcomes|
  {
    if |outcomes| == 0 then Start
    else Step(Run(outcomes[..|outcomes| - 1]), outcomes[|outcomes| - 1])
  }

  /** The number of requests in a trace that alternates requests and waits. */
  function Attempts(trace: seq<Event>): nat { (|trace| + 1) / 2 }

  /** The total time spent waiting. */
  function WaitedMs(trace: seq<Event>): nat
    decreases |trace|
  {
    if |trace| == 0 then 0
    else WaitedMs(trace[..|trace| - 1]) + (if trace[|trace| - 1].Sleep? then trace[|trace| - 1].ms else 0)
  }

  /** No outcome before position i is a 200. */
  predicate FailedBefore(outcomes: seq<Response>, i: nat)
    requires i <= |outcomes|
  {
    forall j :: 0 <= j < i ==> !Is200(outcomes[j])
  }

  /** The i-th request is the first to succeed, and it is within the attempt budget. */
  predicate FirstSuccessAt(outcomes: seq<Response>, i: nat) {
    i < |outcomes| && i < MaxRetries && Is200(outcomes[i]) && FailedBefore(outcomes, i)
  }

  /**
   * The shape of every trace the loop can produce from the given outcomes:
   * requests at even positions, consuming the outcomes in order; a wait of
   * RetryDelayMs at every odd position; at most MaxRetries requests; and a
   * verdict that agrees with the last request.
   */
  ghost predicate Shaped(outcomes: seq<Response>, l: Loop) {
    var t := l.trace;
    var n := Attempts(t);
    && (forall k :: 0 <= k < |t| ==> (t[k].Request? <==> k % 2 == 0))
    && (forall k :: 0 <= k < |t| && k % 2 == 0 ==> k / 2 < |outcomes| && t[k] == Request(outcomes[k / 2]))
    && (forall k :: 0 <= k < |t| && k % 2 == 1 ==> t[k] == Sleep(RetryDelayMs))
    && n <= MaxRetries && n <= |outcomes|
    && (n > 0 ==> FailedBefore(outcomes, n - 1))
    && (l.verdict.Pending? ==>
          |t| % 2 == 0 && n == |outcomes| < MaxRetries && FailedBefore(outcomes, n) && l.retryCount == n)
    && (l.verdict.Loaded? ==>
          |t| % 2 == 1 && Is200(outcomes[n - 1]) && l.verdict.data == outcomes[n - 1].data && l.retryCount == n - 1)
    && (l.verdict.Exhausted? ==>
          |t| % 2 == 1 && n == MaxRetries && !Is200(outcomes[n - 1]) && l.retryCount == n)
  }

  lemma ShapedExtend(outcomes: seq<Response>, l: Loop, o: Response)
    requires Shaped(outcomes, l)
    ensures Shaped(outcomes + [o], Step(l, o))
  {
    var os := outcomes + [o];
    assert forall j :: 0 <= j < |outcomes| ==> os[j] == outcomes[j];
  }

  /** Every loop state reachable from the start has the shape above. */
  lemma {:induction false} RunShaped(outcomes: seq<Response>)
    ensures Shaped(outcomes, Run(outcomes))
    decreases |outcomes|
  {
    if |outcomes| > 0 {
      var p := outcomes[..|outcomes| - 1];
      RunShaped(p);
      assert outcomes == p + [outcomes[|outcomes| - 1]];
      ShapedExtend(p, Run(p), outcomes[|outcomes| - 1]);
    }
  }

  /** Once the loop has stopped, later outcomes are never requested. */
  lemma {:induction false} RunStable(outcomes: seq<Response>, n: nat)
    requires n <= |outcomes|
    requires !Run(outcomes[..n]).verdict.Pending?
    ensures Run(outcomes) == Run(outcomes[..n])
    decreases |outcomes| - n
  {
    if n < |outcomes| {
      var p := outcomes[..|outcomes| - 1];
      assert p[..n] == outcomes[..n];
      RunStable(p, n);
    } else {
      assert outcomes[..n] == outcomes;
    }
  }

  /**
   * The verdict, in terms of the outcomes alone: data is loaded exactly when
   * one of the first MaxRetries requests returns 200, and it is that first
   * 200's data.
   */
  lemma RunLoaded(outcomes: seq<Response>, d: seq<Category>)
    ensures Run(outcomes).verdict == Loaded(d) <==>
      exists i: nat :: FirstSuccessAt(outcomes, i) && d == outcomes[i].data
  {
    var l := Run(outcomes);
    RunShaped(outcomes);
    var n := Attempts(l.trace);
    if l.verdict == Loaded(d) {
      assert FirstSuccessAt(outcomes, n - 1);
    }
    if exists i: nat :: FirstSuccessAt(outcomes, i) && d == outcomes[i].data {
      var i: nat :| FirstSuccessAt(outcomes, i) && d == outcomes[i].data;
      assert i + 1 >= n;
    }
  }

  /** The loop gives up exactly when the first MaxRetries requests all fail. */
  lemma RunExhausted(outcomes: seq<Response>)
    ensures Run(outcomes).verdict == Exhausted <==>
      |outcomes| >= MaxRetries && FailedBefore(outcomes, MaxRetries)
  {
    var l := Run(outcomes);
    RunShaped(outcomes);
    var n := Attempts(l.trace);
    if |outcomes| >= MaxRetries && FailedBefore(outcomes, MaxRetries) && n > 0 {
      assert !Is200(outcomes[n - 1]);
    }
  }

  /** The loop is still running exactly while fewer than MaxRetries responses, all failures, have arrived. */
  lemma RunPending(outcomes: seq<Response>)
    ensures Run(outcomes).verdict == Pending <==>
      |outcomes| < MaxRetries && FailedBefore(outcomes, |outcomes|)
  {
    var l := Run(outcomes);
    RunShaped(outcomes);
    var n := Attempts(l.trace);
    if |outcomes| < MaxRetries && FailedBefore(outcomes, |outcomes|) && n > 0 {
      assert !Is200(outcomes[n - 1]);
    }
  }

  lemma {:induction false} WaitedAlternating(t: seq<Event>)
    requires forall k :: 0 <= k < |t| && k % 2 == 0 ==> t[k].Request?
    requires forall k :: 0 <= k < |t| && k % 2 == 1 ==> t[k] == Sleep(RetryDelayMs)
    ensures WaitedMs(t) == (|t| / 2) * RetryDelayMs
    decreases |t|
  {
    if |t| > 0 {
      WaitedAlternating(t[..|t| - 1]);
    }
  }

  /** Each wait follows a failed request and, unless the loop is still waiting, precedes the next request. */
  lemma RunWaitPlacement(outcomes: seq<Response>)
    ensures var t := Run(outcomes).trace;
      forall k :: 0 <= k < |t| && t[k].Sleep? ==>
        0 < k && t[k - 1].Request? && !Is200(t[k - 1].outcome) && (k + 1 < |t| ==> t[k + 1].Request?)
  {
    var l := Run(outcomes);
    RunShaped(outcomes);
    var t := l.trace;
    forall k | 0 <= k < |t| && t[k].Sleep?
      ensures 0 < k && t[k - 1].Request? && !Is200(t[k - 1].outcome)
    {
      assert k % 2 == 1;
      var i := (k - 1) / 2;
      assert t[k - 1] == Request(outcomes[i]);
      assert i + 1 < Attempts(t) || (l.verdict.Pending? && i < Attempts(t));
    }
  }

  /**
   * A stopped loop waited once fewer than it requested, so at most
   * (MaxRetries - 1) * RetryDelayMs in all, and exactly that when it gave up.
   */
  lemma RunWaitTotal(outcomes: seq<Response>)
    ensures Attempts(Run(outcomes).trace) <= MaxRetries
    ensures !Run(outcomes).verdict.Pending? ==>
      WaitedMs(Run(outcomes).trace) == (Attempts(Run(outcomes).trace) - 1) * RetryDelayMs
    ensures WaitedMs(Run(outcomes).trace) <= (MaxRetries - 1) * RetryDelayMs
    ensures Run(outcomes).verdict.Exhausted? ==>
      Attempts(Run(outcomes).trace) == MaxRetries && WaitedMs(Run(outcomes).trace) == (MaxRetries - 1) * RetryDelayMs
  {
    var l := Run(outcomes);
    RunShaped(outcomes);
    WaitedAlternating(l.trace);
  }

  /**
   * The loop as the pages write it: a `retryCount` bounded by MaxRetries, a
   * `break` on the first 200 and on the last failure, and a wait otherwise.
   */
  method FetchFoods(outcomes: seq<Response>) returns (trace: seq<Event>, verdict: Verdict)
    ensures trace == Run(outcomes).trace && verdict == Run(outcomes).verdict
    ensures Attempts(trace) <= MaxRetries
  {
    var retryCount: nat := 0;
    var next := 0;
    trace := [];
    verdict := Pending;
    while retryCount < MaxRetries && next < |outcomes|
      invariant next == retryCount < MaxRetries && next <= |outcomes|
      invariant verdict == Pending
      invariant Run(outcomes[..next]) == Loop(retryCount, trace, verdict)
    {
      var response := outcomes[next];
      assert outcomes[..next + 1][..next] == outcomes[..next];
      next := next + 1;
      if Is200(response) {
        trace := trace + [Request(response)];
        verdict := Loaded(response.data);
        break;
      }
      retryCount := retryCount + 1;
      if retryCount == MaxRetries {
        trace := trace + [Request(response)];
        verdict := Exhausted;
        break;
      }
      trace := trace + [Request(response), Sleep(RetryDelayMs)];
    }
    assert Run(outcomes[..next]) == Loop(retryCount, trace, verdict);
    if verdict.Pending? {
      assert outcomes[..next] == outcomes;
    } else {
      RunStable(outcomes, next);
    }
    RunWaitTotal(outcomes);
  }
}
