/**
  The retry policy of MerakiClient.doRequestWithRetry, as a function of the
  retry budget, the world and the request. The class method in module Client
  runs the same policy as a loop and is proved equal to Retry.
 */
module RetryPolicy {

  import opened Http

  /** A status the executor hands back at once: success, or a client error other than 429. */
  predicate IsFinal(status: int) {
    status < 300 || (400 <= status < 500 && status != 429)
  }

  function Pow2(n: nat): (p: nat)
    ensures p >= 1
  {
    if n == 0 then 1 else 2 * Pow2(n - 1)
  }

  /**
    The jitter time.Now().UnixNano() % 1000, in milliseconds. Go's % truncates
    toward zero, so the jitter is the remainder with the sign of nanos: it
    differs from nanos by a multiple of 1000 and lies in [0, 999] for a clock
    after 1970 and in [-999, 0] before.
   */
  function JitterMs(nanos: int): (ms: int)
    ensures (nanos - ms) % 1000 == 0
    ensures nanos >= 0 ==> 0 <= ms < 1000
    ensures nanos < 0 ==> -1000 < ms <= 0
  {
    if nanos >= 0 then nanos % 1000 else -((-nanos) % 1000)
  }

  /**
    The backoff before the next attempt, in milliseconds: 2^attempt seconds
    plus a jitter of (UnixNano % 1000) milliseconds. With a clock after 1970
    the wait is at least 2^attempt seconds and strictly less than one second
    more; before 1970 Go's remainder is negative.
   */
  function BackoffMs(attempt: nat, nanos: int): (ms: int)
    ensures nanos >= 0 ==> Pow2(attempt) * 1000 <= ms < Pow2(attempt) * 1000 + 1000
    ensures nanos < 0 ==> Pow2(attempt) * 1000 - 1000 < ms <= Pow2(attempt) * 1000
  {
    Pow2(attempt) * 1000 + JitterMs(nanos)
  }

  /**
    What doRequestWithRetry returns: a response (with a flag saying that its
    body has already been closed), an error, or neither (nil, nil) when the
    loop never runs.
   */
  datatype Exchange = Delivered(resp: Response, bodyClosed: bool) | Aborted(err: ClientError) | NothingSent

  /** The result together with the calls made to the transport and the backoff waits completed. */
  datatype RetryRun = RetryRun(result: Exchange, sends: nat, waits: seq<int>)

  /** The run that has made `sends` calls and `waits` waits, followed by `tail`. */
  function After(sends: nat, waits: seq<int>, tail: RetryRun): RetryRun {
    RetryRun(tail.result, sends + tail.sends, waits + tail.waits)
  }

  /** The loop from iteration `attempt` on, `last` being what it returns if no iteration is left. */
  function RetryFrom(maxRetries: int, w: World, req: Request, attempt: nat, last: Exchange): RetryRun
    decreases if attempt <= maxRetries then maxRetries + 1 - attempt else 0
  {
    if attempt > maxRetries then RetryRun(last, 0, [])
    else
      match w.send(req, attempt)
      case Failed(e) => RetryRun(Aborted(TransportFailure(e)), 1, [])
      case Replied(resp) =>
        if IsFinal(resp.status) then RetryRun(Delivered(resp, false), 1, [])
        else if attempt < maxRetries then
          if w.cancelled(req, attempt) then RetryRun(Aborted(Cancelled), 1, [])
          else After(1, [BackoffMs(attempt, w.clock(req, attempt))],
                     RetryFrom(maxRetries, w, req, attempt + 1, Delivered(resp, true)))
        else After(1, [], RetryFrom(maxRetries, w, req, attempt + 1, Delivered(resp, true)))
  }

  /** The whole run of doRequestWithRetry. */
  function Retry(maxRetries: int, w: World, req: Request): RetryRun {
    RetryFrom(maxRetries, w, req, 0, NothingSent)
  }

  /** Attempt j was answered with a status worth retrying and no cancellation cut the wait short. */
  predicate RetriedQuietly(w: World, req: Request, j: nat) {
    && w.send(req, j).Replied?
    && !IsFinal(w.send(req, j).resp.status)
    && !w.cancelled(req, j)
  }

  /** The waits completed before attempt k when every earlier attempt was retried. */
  function Backoffs(w: World, req: Request, k: nat): (ws: seq<int>)
    ensures |ws| == k
  {
    if k == 0 then [] else Backoffs(w, req, k - 1) + [BackoffMs(k - 1, w.clock(req, k - 1))]
  }

  /** What the loop holds on entry to iteration k when every earlier attempt was retried. */
  function LastBefore(w: World, req: Request, k: nat): Exchange {
    if k > 0 && w.send(req, k - 1).Replied? then Delivered(w.send(req, k - 1).resp, true) else NothingSent
  }

  /**
    If attempts 0..k-1 were all retried (k within the budget), the run is k
    calls and the k backoff waits, followed by the loop from attempt k.
   */
  lemma {:induction false} RetryReaches(maxRetries: int, w: World, req: Request, k: nat)
    requires k <= maxRetries
    requires forall j :: 0 <= j < k ==> RetriedQuietly(w, req, j)
    ensures Retry(maxRetries, w, req)
      == After(k, Backoffs(w, req, k), RetryFrom(maxRetries, w, req, k, LastBefore(w, req, k)))
  {
    if k > 0 {
      RetryReaches(maxRetries, w, req, k - 1);
      assert RetriedQuietly(w, req, k - 1);
      var tail := RetryFrom(maxRetries, w, req, k, LastBefore(w, req, k));
      assert RetryFrom(maxRetries, w, req, k - 1, LastBefore(w, req, k - 1))
        == After(1, [BackoffMs(k - 1, w.clock(req, k - 1))], tail);
      assert Backoffs(w, req, k - 1) + [BackoffMs(k - 1, w.clock(req, k - 1))] + tail.waits
        == Backoffs(w, req, k - 1) + ([BackoffMs(k - 1, w.clock(req, k - 1))] + tail.waits);
    }
  }

  /**
    A final status (below 300, or 4xx other than 429) on attempt k is returned
    on that attempt, with its body open: k + 1 calls and no further wait. In
    particular a transport that answers 503 N times and then 200 gets exactly
    N + 1 calls when N is within the budget, and a 404 on the first attempt
    gets one.
   */
  lemma ReturnsFinalStatus(maxRetries: int, w: World, req: Request, k: nat)
    requires k <= maxRetries
    requires forall j :: 0 <= j < k ==> RetriedQuietly(w, req, j)
    requires w.send(req, k).Replied? && IsFinal(w.send(req, k).resp.status)
    ensures Retry(maxRetries, w, req) == RetryRun(Delivered(w.send(req, k).resp, false), k + 1, Backoffs(w, req, k))
  {
    RetryReaches(maxRetries, w, req, k);
  }

  /** A transport error on attempt k is returned at once, without a response and without retrying. */
  lemma TransportErrorIsNotRetried(maxRetries: int, w: World, req: Request, k: nat)
    requires k <= maxRetries
    requires forall j :: 0 <= j < k ==> RetriedQuietly(w, req, j)
    requires w.send(req, k).Failed?
    ensures Retry(maxRetries, w, req)
      == RetryRun(Aborted(TransportFailure(w.send(req, k).cause)), k + 1, Backoffs(w, req, k))
  {
    RetryReaches(maxRetries, w, req, k);
  }

  /**
    Cancellation during the wait after attempt k returns the cancellation
    error with no response, and no later attempt is made.
   */
  lemma CancellationAborts(maxRetries: int, w: World, req: Request, k: nat)
    requires k < maxRetries
    requires forall j :: 0 <= j < k ==> RetriedQuietly(w, req, j)
    requires w.send(req, k).Replied? && !IsFinal(w.send(req, k).resp.status)
    requires w.cancelled(req, k)
    ensures Retry(maxRetries, w, req) == RetryRun(Aborted(Cancelled), k + 1, Backoffs(w, req, k))
  {
    RetryReaches(maxRetries, w, req, k);
  }

  /**
    When every one of the maxRetries + 1 attempts answers with a status worth
    retrying, the last response is returned with no error, after
    maxRetries + 1 calls and maxRetries waits, and its body has already been
    closed.
   */
  lemma ExhaustionReturnsLastResponse(maxRetries: int, w: World, req: Request)
    requires maxRetries >= 0
    requires forall j :: 0 <= j < maxRetries ==> RetriedQuietly(w, req, j)
    requires w.send(req, maxRetries).Replied? && !IsFinal(w.send(req, maxRetries).resp.status)
    ensures Retry(maxRetries, w, req)
      == RetryRun(Delivered(w.send(req, maxRetries).resp, true), maxRetries + 1, Backoffs(w, req, maxRetries))
  {
    RetryReaches(maxRetries, w, req, maxRetries);
  }

  /** The shape of every run of the loop from attempt a on. */
  lemma {:induction false} RetryFromShape(maxRetries: int, w: World, req: Request, a: nat, last: Exchange)
    requires a <= maxRetries
    ensures var run := RetryFrom(maxRetries, w, req, a, last);
      && 1 <= run.sends <= maxRetries + 1 - a
      && |run.waits| == run.sends - 1
      && (forall i :: 0 <= i < |run.waits| ==> run.waits[i] == BackoffMs(a + i, w.clock(req, a + i)))
      && !run.result.NothingSent?
    decreases maxRetries - a
  {
    var run := RetryFrom(maxRetries, w, req, a, last);
    match w.send(req, a)
    case Failed(_) =>
    case Replied(resp) =>
      if !IsFinal(resp.status) {
        if a < maxRetries {
          if !w.cancelled(req, a) {
            var tail := RetryFrom(maxRetries, w, req, a + 1, Delivered(resp, true));
            RetryFromShape(maxRetries, w, req, a + 1, Delivered(resp, true));
            assert run.waits == [BackoffMs(a, w.clock(req, a))] + tail.waits;
            forall i | 0 <= i < |run.waits|
              ensures run.waits[i] == BackoffMs(a + i, w.clock(req, a + i))
            {
              if i > 0 {
                assert run.waits[i] == tail.waits[i - 1];
              }
            }
          }
        } else {
          assert RetryFrom(maxRetries, w, req, a + 1, Delivered(resp, true)) == RetryRun(Delivered(resp, true), 0, []);
        }
      }
  }

  /**
    Bounds of every run: with maxRetries >= 0 the transport is called at least
    once and at most maxRetries + 1 times, a wait completes between each two
    consecutive calls and nowhere else (so only after attempts below
    maxRetries), wait i lasts BackoffMs(i, clock) milliseconds, and some
    response or error is returned. With a negative budget nothing is sent and
    neither a response nor an error comes back.
   */
  lemma RetryBounds(maxRetries: int, w: World, req: Request)
    ensures var run := Retry(maxRetries, w, req);
      && (maxRetries < 0 ==> run == RetryRun(NothingSent, 0, []))
      && (maxRetries >= 0 ==>
           && 1 <= run.sends <= maxRetries + 1
           && |run.waits| == run.sends - 1
           && (forall i :: 0 <= i < |run.waits| ==> run.waits[i] == BackoffMs(i, w.clock(req, i)))
           && !run.result.NothingSent?)
  {
    if maxRetries >= 0 {
      RetryFromShape(maxRetries, w, req, 0, NothingSent);
    }
  }

  /**
    With a clock after 1970, each completed backoff wait i lasts at least
    2^i seconds and strictly less than 2^i + 1 seconds.
   */
  lemma WaitsWithinWindow(maxRetries: int, w: World, req: Request)
    requires forall j: nat :: w.clock(req, j) >= 0
    ensures var run := Retry(maxRetries, w, req);
      forall i :: 0 <= i < |run.waits| ==> Pow2(i) * 1000 <= run.waits[i] < Pow2(i) * 1000 + 1000
  {
    RetryBounds(maxRetries, w, req);
  }
}
