/**
 * The CMS fetch client with its circuit breaker (apps/web/src/lib/strapi.ts,
 * `strapiFetch`). The process-wide `strapiUnavailableUntil` and
 * `strapiRequestCount` are threaded through as a `Breaker` value; the clock
 * reading and the network's answer are parameters.
 */
module Breaker {
  import opened Wrappers
  import opened CacheTags

  /** How long the breaker stays open after a failed request, in milliseconds. */
  const FailureBackoffMs := 45000

  /** Breaker state: requests are skipped while the clock is before `unavailableUntil`. */
  datatype Breaker = Breaker(unavailableUntil: int, requestCount: nat)

  /** The state at process start. */
  const Initial := Breaker(0, 0)

  predicate IsOpen(b: Breaker, now: int) {
    now < b.unavailableUntil
  }

  /**
   * What the network would answer if asked: a parsed 2xx body, or a failure
   * (non-2xx status, network error, timeout, unparseable body) observed at
   * clock reading `failedAt`.
   */
  datatype Outcome<+T> = Ok(data: T) | Fail(failedAt: int)

  /** The caller's cache hints: a revalidation window and cache tags, both optional. */
  datatype FetchOptions = FetchOptions(revalidate: Option<int>, tags: Option<seq<string>>)

  /** The cache hint attached to a request that is sent. */
  datatype CacheHint = CacheHint(revalidate: int, tags: Option<seq<string>>)

  /** A request that was sent: its sequence number and cache hint. */
  datatype Sent = Sent(requestId: nat, hint: CacheHint)

  datatype Fetched<+T> = Fetched(value: Option<T>, next: Breaker, sent: Option<Sent>)

  /** The hint built from the options: default window, tags de-duplicated. */
  function HintFor(opts: FetchOptions): (h: CacheHint)
    ensures h.revalidate == opts.revalidate.GetOr(DefaultRevalidateSeconds)
    ensures h.tags == DedupeTags(opts.tags)
  {
    CacheHint(opts.revalidate.GetOr(DefaultRevalidateSeconds), DedupeTags(opts.tags))
  }

  /**
   * `strapiFetch`: while the breaker is open nothing is sent and nothing
   * changes; otherwise the request is numbered and sent, a success closes the
   * breaker and returns the body, and a failure opens it for the back-off
   * window and returns nothing. It never raises.
   */
  function StrapiFetch<T>(b: Breaker, now: int, opts: FetchOptions, outcome: Outcome<T>): (r: Fetched<T>)
    ensures IsOpen(b, now) ==> r.value.None? && r.next == b && r.sent.None?
    ensures !IsOpen(b, now) ==> r.next.requestCount == b.requestCount + 1
    ensures !IsOpen(b, now) ==> r.sent == Some(Sent(b.requestCount + 1, HintFor(opts)))
    ensures !IsOpen(b, now) && outcome.Ok? ==> r.value == Some(outcome.data) && r.next.unavailableUntil == 0
    ensures !IsOpen(b, now) && outcome.Fail? ==>
      r.value.None? && r.next.unavailableUntil == outcome.failedAt + FailureBackoffMs
    ensures r.value.Some? <==> !IsOpen(b, now) && outcome.Ok?
  {
    if IsOpen(b, now) then Fetched(None, b, None)
    else
      var id := b.requestCount + 1;
      var sent := Some(Sent(id, HintFor(opts)));
      match outcome
      case Ok(data) => Fetched(Some(data), Breaker(0, id), sent)
      case Fail(t) => Fetched(None, Breaker(t + FailureBackoffMs, id), sent)
  }

  /** After a failure at `t`, every request until `t + FailureBackoffMs` is skipped. */
  lemma FailureHoldsOffRequests<T, U>(b: Breaker, now: int, opts: FetchOptions, t: int,
                                      later: int, opts': FetchOptions, outcome': Outcome<U>)
    requires !IsOpen(b, now)
    requires t <= later < t + FailureBackoffMs
    ensures var first := StrapiFetch<T>(b, now, opts, Fail(t));
      var second := StrapiFetch(first.next, later, opts', outcome');
      second.value.None? && second.sent.None? && second.next == first.next
  {
  }

  /** Once the back-off window has passed, the next request is sent again. */
  lemma BackoffExpires<T, U>(b: Breaker, now: int, opts: FetchOptions, t: int,
                             later: int, opts': FetchOptions, outcome': Outcome<U>)
    requires !IsOpen(b, now)
    requires later >= t + FailureBackoffMs
    ensures var first := StrapiFetch<T>(b, now, opts, Fail(t));
      StrapiFetch(first.next, later, opts', outcome').sent.Some?
  {
  }

  /** After a success, any request at a non-negative clock reading is sent. */
  lemma SuccessCloses<T, U>(b: Breaker, now: int, opts: FetchOptions, data: T,
                            later: int, opts': FetchOptions, outcome': Outcome<U>)
    requires !IsOpen(b, now) && later >= 0
    ensures var first := StrapiFetch(b, now, opts, Ok(data));
      StrapiFetch(first.next, later, opts', outcome').sent.Some?
  {
  }

  /** One call of the client: the clock reading and what the network would answer. */
  datatype Call<+T> = Call(now: int, outcome: Outcome<T>)

  /** The state after a sequence of calls, and the ids of the requests actually sent. */
  datatype Run = Run(final: Breaker, sentIds: seq<nat>)

  function RunCalls<T>(b: Breaker, opts: FetchOptions, calls: seq<Call<T>>): Run
    decreases |calls|
  {
    if calls == [] then Run(b, [])
    else
      var f := StrapiFetch(b, calls[0].now, opts, calls[0].outcome);
      var rest := RunCalls(f.next, opts, calls[1..]);
      Run(rest.final, if f.sent.Some? then [f.sent.value.requestId] + rest.sentIds else rest.sentIds)
  }

  /** Request ids are consecutive from the starting count, and the counter counts exactly the sent requests. */
  lemma {:induction false} RequestIdsAreConsecutive<T>(b: Breaker, opts: FetchOptions, calls: seq<Call<T>>)
    ensures var run := RunCalls(b, opts, calls);
      && run.final.requestCount == b.requestCount + |run.sentIds|
      && forall i :: 0 <= i < |run.sentIds| ==> run.sentIds[i] == b.requestCount + 1 + i
    decreases |calls|
  {
    if calls != [] {
      var f := StrapiFetch(b, calls[0].now, opts, calls[0].outcome);
      RequestIdsAreConsecutive(f.next, opts, calls[1..]);
    }
  }

  /** While every call falls inside the open window, nothing is sent and the state does not move. */
  lemma {:induction false} NoRequestsWhileOpen<T>(b: Breaker, opts: FetchOptions, calls: seq<Call<T>>)
    requires forall i :: 0 <= i < |calls| ==> calls[i].now < b.unavailableUntil
    ensures RunCalls(b, opts, calls) == Run(b, [])
    decreases |calls|
  {
    if calls != [] {
      NoRequestsWhileOpen(b, opts, calls[1..]);
    }
  }
}
