/** One GET with retries: only throttled answers are retried, at most max_retries times, and never for longer than the
    cap at a time. */
module HttpSend {
  import opened Wrappers

  const MAX_WAIT := 60.0

  // What the n-th request meets. wait is what the headers of a 429 ask for, if they do.
  datatype Reply<Body> =
    | ConnectionFailed
    | Throttled(wait: Option<real>)
    | HttpError(code: int)
    | Malformed
    | Good(body: Body)

  datatype Error = Unreachable | RateLimited | InvalidKey | NotFound | Invalid | OtherError

  function ErrorFor(code: int): Error {
    if code == 401 then InvalidKey else if code == 404 then NotFound else if code == 400 then Invalid else OtherError
  }

  function Min(x: real, y: real): real {
    if x < y then x else y
  }

  // 1, 2, 4, ... up to the cap.
  function Backoff(attempt: nat): (b: real)
    ensures 1.0 <= b <= MAX_WAIT
  {
    if attempt == 0 then 1.0 else Min(2.0 * Backoff(attempt - 1), MAX_WAIT)
  }

  function Wait<Body>(replies: nat -> Reply<Body>, attempt: nat): real
    requires replies(attempt).Throttled?
  {
    replies(attempt).wait.GetOr(Backoff(attempt))
  }

  // The request is repeated after this attempt.
  predicate Retried<Body>(replies: nat -> Reply<Body>, maxRetries: nat, attempt: nat) {
    replies(attempt).Throttled? && Wait(replies, attempt) <= MAX_WAIT && attempt < maxRetries
  }

  // The attempt that decides the call: the first that is not repeated.
  function Last<Body>(replies: nat -> Reply<Body>, maxRetries: nat, from: nat): (last: nat)
    requires from <= maxRetries
    ensures from <= last <= maxRetries && !Retried(replies, maxRetries, last)
    ensures forall k :: from <= k < last ==> Retried(replies, maxRetries, k)
    decreases maxRetries - from
  {
    if Retried(replies, maxRetries, from) then Last(replies, maxRetries, from + 1) else from
  }

  function Verdict<Body>(r: Reply<Body>): Result<Body, Error> {
    match r
    case ConnectionFailed => Failure(Unreachable)
    case Throttled(_) => Failure(RateLimited)
    case HttpError(code) => Failure(ErrorFor(code))
    case Malformed => Failure(OtherError)
    case Good(body) => Success(body)
  }

  function CountThrottled<Body>(replies: nat -> Reply<Body>, n: nat): nat {
    if n == 0 then 0 else CountThrottled(replies, n - 1) + if replies(n - 1).Throttled? then 1 else 0
  }

  // What the waits before attempt n add up to.
  function Waited<Body>(replies: nat -> Reply<Body>, n: nat): real {
    if n == 0 then 0.0
    else
      Waited(replies, n - 1) +
        match replies(n - 1)
        case Throttled(Some(asked)) => asked
        case Throttled(None) => Backoff(n - 1)
        case _ => 0.0
  }

  class OddsApiClient {
    const maxRetries: nat
    var requestCount: nat
    var errorCount: nat
    var rateLimitHits: nat

    constructor (maxRetries: nat)
      ensures this.maxRetries == maxRetries && requestCount == errorCount == rateLimitHits == 0
    {
      this.maxRetries := maxRetries;
      requestCount, errorCount, rateLimitHits := 0, 0, 0;
    }

    /** The call ends at the first attempt that is not repeated, with what that attempt met: a body, or the error of
        its status, or a rate-limit error when the server asks for more than the cap or the retries are used up. So
        at most max_retries + 1 requests are made, with a sleep after each throttled answer but the last. */
    method Send<Body>(replies: nat -> Reply<Body>) returns (r: Result<Body, Error>, slept: real)
      modifies this
      ensures var last := Last(replies, maxRetries, 0);
        && r == Verdict(replies(last))
        && rateLimitHits == old(rateLimitHits) + CountThrottled(replies, last + 1)
        && requestCount == old(requestCount) + last + (if replies(last).ConnectionFailed? then 0 else 1)
        && errorCount == old(errorCount) + (if r.Failure? && r.error != RateLimited then 1 else 0)
        && slept == Waited(replies, last) && slept <= MAX_WAIT * last as real
    {
      slept := 0.0;
      var backoff := 1.0;
      var attempt := 0;
      while true
        invariant attempt <= maxRetries && backoff == Backoff(attempt)
        invariant Last(replies, maxRetries, 0) == Last(replies, maxRetries, attempt)
        invariant requestCount == old(requestCount) + attempt && errorCount == old(errorCount)
        invariant rateLimitHits == old(rateLimitHits) + CountThrottled(replies, attempt)
        invariant slept == Waited(replies, attempt) && slept <= MAX_WAIT * attempt as real
        decreases maxRetries - attempt
      {
        var reply := replies(attempt);
        if reply.ConnectionFailed? {
          errorCount := errorCount + 1;
          return Failure(Unreachable), slept;
        }
        requestCount := requestCount + 1;
        if reply.Throttled? {
          rateLimitHits := rateLimitHits + 1;
          var wait := if reply.wait.Some? then reply.wait.value else backoff;
          if wait > MAX_WAIT { return Failure(RateLimited), slept; }
          if attempt >= maxRetries { return Failure(RateLimited), slept; }
          slept := slept + wait;
          backoff := Min(2.0 * backoff, MAX_WAIT);
          attempt := attempt + 1;
          continue;
        }
        if reply.Good? { return Success(reply.body), slept; }
        errorCount := errorCount + 1;
        return Failure(if reply.HttpError? then ErrorFor(reply.code) else OtherError), slept;
      }
    }
  }

  /** The wait without a header doubles from one second and stays at the cap of sixty from the seventh on. */
  lemma {:induction false} BackoffDoubles(attempt: nat)
    ensures Backoff(attempt) == if attempt < 6 then [1.0, 2.0, 4.0, 8.0, 16.0, 32.0][attempt] else 60.0
  {
    if attempt > 0 { BackoffDoubles(attempt - 1); }
  }

  ghost predicate AnsweredAt<Body>(replies: nat -> Reply<Body>, k: nat) {
    replies(k).Good? && forall j :: 0 <= j < k ==> replies(j).Throttled? && replies(j).wait.GetOr(0.0) <= 60.0
  }

  /** A call succeeds exactly when some attempt within the budget is answered and all before it were throttled with a
      bearable wait. */
  lemma SucceedsExactly<Body>(replies: nat -> Reply<Body>, maxRetries: nat)
    ensures Verdict(replies(Last(replies, maxRetries, 0))).Success? <==>
      exists k :: 0 <= k <= maxRetries && AnsweredAt(replies, k)
  {
    var last := Last(replies, maxRetries, 0);
    if replies(last).Good? {
      assert AnsweredAt(replies, last) by {
        forall j | 0 <= j < last ensures replies(j).Throttled? && replies(j).wait.GetOr(0.0) <= 60.0 {
          assert Retried(replies, maxRetries, j);
        }
      }
    }
    if k :| 0 <= k <= maxRetries && AnsweredAt(replies, k) {
      assert !Retried(replies, maxRetries, k);
    }
  }

  // A throttled answer that ends the call: it asks for more than the cap, or the retries are used up.
  predicate Exhausted<Body>(replies: nat -> Reply<Body>, maxRetries: nat, k: nat) {
    replies(k).Throttled? && (k == maxRetries || replies(k).wait.GetOr(0.0) > 60.0)
  }

  /** A call fails by what ends it: no connection, a throttle that cannot be waited out, or the status of the answer. */
  lemma FailsExactly<Body>(replies: nat -> Reply<Body>, maxRetries: nat)
    ensures
      var last := Last(replies, maxRetries, 0);
      var r, reply := Verdict(replies(last)), replies(last);
      && (r == Failure(Unreachable) <==> reply.ConnectionFailed?)
      && (r == Failure(RateLimited) <==> Exhausted(replies, maxRetries, last))
      && (r == Failure(InvalidKey) <==> reply == HttpError(401)) && (r == Failure(NotFound) <==> reply == HttpError(404))
      && (r == Failure(Invalid) <==> reply == HttpError(400))
  {
    BackoffDoubles(Last(replies, maxRetries, 0));
  }
}
