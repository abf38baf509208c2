/** The retry automaton of a webhook delivery: one attempt, the decision after it, and what any sequence of attempts
    adds up to. */
module Delivery {
  import opened Wrappers
  import opened Domain

  const BACKOFF := [60, 120, 300, 900, 1800, 3600, 7200, 21600]
  const MAX_ATTEMPTS := |BACKOFF|

  // What came back from one POST.
  datatype Response = TransportError(text: string) | Status(code: int)

  datatype Row = Row(
    attempts: nat,
    lastAttempt: Option<Time>,
    lastStatus: Option<int>,
    lastError: Option<string>,
    deliveredAt: Option<Time>,
    nextRetry: Option<Time>)

  const NEW_ROW := Row(0, None, None, None, None, None)

  datatype Verdict = Accepted | Retry | GivenUp

  function VerdictOf(attempts: nat, r: Response): Verdict {
    if r.Status? && (200 <= r.code < 300 || r.code == 409) then Accepted
    else if r.TransportError? || r.code in {408, 425, 429} || r.code >= 500 then
      if attempts >= MAX_ATTEMPTS then GivenUp else Retry
    else GivenUp
  }

  // An error that may pass: no answer, a timeout, a throttle or a fault of the server.
  predicate Passing(r: Response) {
    match r
    case TransportError(_) => true
    case Status(code) => code == 408 || code == 425 || code == 429 || 500 <= code
  }

  // The row after one attempt at this moment. http renders a status as the error text.
  function Attempted(row: Row, r: Response, now: Time, http: int -> string): Row {
    var n := row.attempts + 1;
    var status := if r.Status? then Some(r.code) else row.lastStatus;
    match VerdictOf(n, r)
    case Accepted => Row(n, Some(now), status, None, Some(now), None)
    case Retry => Row(n, Some(now), status, Some(ErrorOf(r, http)), row.deliveredAt, Some(now + BACKOFF[n - 1]))
    case GivenUp => Row(n, Some(now), status, Some(ErrorOf(r, http)), row.deliveredAt, None)
  }

  function ErrorOf(r: Response, http: int -> string): string {
    match r
    case TransportError(text) => text
    case Status(code) => http(code)
  }

  datatype Outcome = Outcome(success: bool, permanentFail: bool, nextRetry: Option<Time>)

  function OutcomeOf(row: Row, r: Response, now: Time, http: int -> string): Outcome {
    var v := VerdictOf(row.attempts + 1, r);
    Outcome(v.Accepted?, v.GivenUp?, Attempted(row, r, now, http).nextRetry)
  }

  class WebhookDelivery {
    var attempts: nat
    var lastAttempt: Option<Time>
    var lastStatus: Option<int>
    var lastError: Option<string>
    var deliveredAt: Option<Time>
    var nextRetry: Option<Time>

    constructor ()
      ensures Contents() == NEW_ROW
    {
      attempts, lastAttempt, lastStatus, lastError, deliveredAt, nextRetry := 0, None, None, None, None, None;
    }

    function Contents(): Row
      reads this
    {
      Row(attempts, lastAttempt, lastStatus, lastError, deliveredAt, nextRetry)
    }

    method SendOne(response: Response, now: Time, http: int -> string) returns (outcome: Outcome)
      modifies this
      ensures Contents() == Attempted(old(Contents()), response, now, http)
      ensures outcome == OutcomeOf(old(Contents()), response, now, http)
      ensures outcome.success <==> response.Status? && (200 <= response.code < 300 || response.code == 409)
      ensures outcome.permanentFail <==> !outcome.success && (!Passing(response) || old(attempts) >= 7)
      ensures outcome.nextRetry.Some? <==> !outcome.success && !outcome.permanentFail
      ensures outcome.success ==> deliveredAt == Some(now) && lastError.None?
      ensures !outcome.success ==> deliveredAt == old(deliveredAt) && lastError.Some?
      ensures attempts == old(attempts) + 1 && lastAttempt == Some(now) && nextRetry == outcome.nextRetry
      ensures lastStatus == if response.Status? then Some(response.code) else old(lastStatus)
    {
      attempts := attempts + 1;
      lastAttempt := Some(now);
      if response.TransportError? {
        outcome := DecideRetry(response.text, now);
        return;
      }
      lastStatus := Some(response.code);
      if 200 <= response.code < 300 || response.code == 409 {
        deliveredAt := Some(now);
        nextRetry := None;
        lastError := None;
        return Outcome(true, false, None);
      }
      if response.code in {408, 425, 429} || response.code >= 500 {
        outcome := DecideRetry(http(response.code), now);
        return;
      }
      lastError := Some(http(response.code));
      nextRetry := None;
      return Outcome(false, true, None);
    }

    method DecideRetry(error: string, now: Time) returns (outcome: Outcome)
      requires attempts > 0
      modifies this`lastError, this`nextRetry
      ensures lastError == Some(error)
      ensures nextRetry == if attempts >= MAX_ATTEMPTS then None else Some(now + BACKOFF[attempts - 1])
      ensures outcome == Outcome(false, attempts >= MAX_ATTEMPTS, nextRetry)
    {
      lastError := Some(error);
      if attempts >= MAX_ATTEMPTS {
        nextRetry := None;
        return Outcome(false, true, None);
      }
      nextRetry := Some(now + BACKOFF[attempts - 1]);
      return Outcome(false, false, nextRetry);
    }
  }

  // ---- phases ----

  datatype Phase = NeverAttempted | RetryPending | Delivered | Failed

  predicate Is(row: Row, p: Phase) {
    match p
    case NeverAttempted => row.attempts == 0 && row.deliveredAt.None? && row.nextRetry.None?
    case RetryPending => row.attempts > 0 && row.deliveredAt.None? && row.nextRetry.Some?
    case Delivered => row.attempts > 0 && row.deliveredAt.Some? && row.nextRetry.None?
    case Failed => row.attempts > 0 && row.deliveredAt.None? && row.nextRetry.None?
  }

  // Rows that are still to be attempted.
  predicate Live(row: Row) {
    Is(row, NeverAttempted) || Is(row, RetryPending)
  }

  datatype Try = Try(response: Response, now: Time)

  function After(tries: seq<Try>, http: int -> string): Row {
    if tries == [] then NEW_ROW
    else var last := tries[|tries| - 1]; Attempted(After(tries[..|tries| - 1], http), last.response, last.now, http)
  }

  // Every attempt is made on a row that is neither delivered nor failed.
  ghost predicate Proper(tries: seq<Try>, http: int -> string) {
    forall i :: 0 <= i < |tries| ==> Live(After(tries[..i], http))
  }

  lemma ProperFront(tries: seq<Try>, http: int -> string)
    requires Proper(tries, http) && tries != []
    ensures Proper(tries[..|tries| - 1], http) && Live(After(tries[..|tries| - 1], http))
  {
    var front := tries[..|tries| - 1];
    forall i | 0 <= i < |front| ensures Live(After(front[..i], http)) { assert front[..i] == tries[..i]; }
  }

  lemma {:induction false} AttemptsCount(tries: seq<Try>, http: int -> string)
    ensures After(tries, http).attempts == |tries|
  {
    if tries != [] { AttemptsCount(tries[..|tries| - 1], http); }
  }

  /** After any sequence of attempts on live rows the delivery is in exactly one phase, told by the last response:
      delivered after a 2xx or a 409; waiting for a retry after an error that may pass, before the eighth attempt; failed
      after anything else. */
  lemma {:induction false} PhaseExactly(tries: seq<Try>, http: int -> string)
    requires Proper(tries, http)
    ensures Is(After(tries, http), NeverAttempted) <==> tries == []
    ensures tries != [] ==>
      var row, last := After(tries, http), tries[|tries| - 1].response;
      var accepted := last.Status? && (200 <= last.code < 300 || last.code == 409);
      && (Is(row, Delivered) <==> accepted)
      && (Is(row, RetryPending) <==> Passing(last) && |tries| < 8)
      && (Is(row, Failed) <==> !accepted && (!Passing(last) || |tries| >= 8))
  {
    AttemptsCount(tries, http);
    if tries != [] {
      ProperFront(tries, http);
      AttemptsCount(tries[..|tries| - 1], http);
    }
  }

  /** At most eight attempts are made, and after the eighth the row is delivered or failed. */
  lemma AtMostEightAttempts(tries: seq<Try>, http: int -> string)
    requires Proper(tries, http)
    ensures |tries| <= 8 && (|tries| == 8 ==> !Live(After(tries, http)))
    decreases |tries|
  {
    PhaseExactly(tries, http);
    if tries != [] {
      ProperFront(tries, http);
      AtMostEightAttempts(tries[..|tries| - 1], http);
    }
  }

  /** A retry is scheduled after the last attempt, by the backoff of that attempt; the last backoff is never used. */
  lemma RetryIsLater(tries: seq<Try>, http: int -> string)
    requires Proper(tries, http) && After(tries, http).nextRetry.Some?
    ensures
      var row := After(tries, http);
      1 <= row.attempts <= 7 && row.lastAttempt.Some?
      && row.nextRetry.value == row.lastAttempt.value + [60, 120, 300, 900, 1800, 3600, 7200][row.attempts - 1]
  {
    PhaseExactly(tries, http);
    AttemptsCount(tries, http);
    AtMostEightAttempts(tries, http);
  }

  // The waits the attempts scheduled, in seconds.
  function Scheduled(tries: seq<Try>, http: int -> string): int {
    if tries == [] then 0
    else
      var row := After(tries, http);
      Scheduled(tries[..|tries| - 1], http)
      + if row.nextRetry.Some? && row.lastAttempt.Some? then row.nextRetry.value - row.lastAttempt.value else 0
  }

  function FirstBackoffs(n: nat): nat
    requires n <= |BACKOFF|
  {
    if n == 0 then 0 else FirstBackoffs(n - 1) + BACKOFF[n - 1]
  }

  lemma {:induction false} BackoffsGrow(m: nat, n: nat)
    requires m <= n <= |BACKOFF|
    ensures FirstBackoffs(m) <= FirstBackoffs(n)
    decreases n
  {
    if m < n { BackoffsGrow(m, n - 1); }
  }

  lemma {:induction false} ScheduledBySteps(tries: seq<Try>, http: int -> string)
    requires Proper(tries, http) && |tries| <= 7
    ensures Scheduled(tries, http) <= FirstBackoffs(|tries|)
  {
    if tries != [] {
      ProperFront(tries, http);
      AttemptsCount(tries, http);
      ScheduledBySteps(tries[..|tries| - 1], http);
      if After(tries, http).nextRetry.Some? { RetryIsLater(tries, http); }
    }
  }

  /** All attempts together schedule at most 13,980 seconds of backoff: under four hours, not eight. */
  lemma TotalBackoff(tries: seq<Try>, http: int -> string)
    requires Proper(tries, http)
    ensures Scheduled(tries, http) <= 13980
  {
    AtMostEightAttempts(tries, http);
    assert FirstBackoffs(7) == 13980 by { SevenBackoffs(); }
    if |tries| == 8 {
      ProperFront(tries, http);
      ScheduledBySteps(tries[..7], http);
    } else {
      ScheduledBySteps(tries, http);
      BackoffsGrow(|tries|, 7);
    }
  }

  lemma SevenBackoffs()
    ensures FirstBackoffs(7) == 13980
  {
    assert FirstBackoffs(3) == 480;
    assert FirstBackoffs(5) == 3180;
    assert FirstBackoffs(6) == 6780;
  }

  // Eight transport errors in a row, every retry on time.
  function WorstCase(n: nat): seq<Try>
    requires n <= 8
  {
    if n == 0 then [] else WorstCase(n - 1) + [Try(TransportError(""), FirstBackoffs(n - 1))]
  }

  lemma {:induction false} WorstCasePrefix(i: nat, n: nat)
    requires i <= n <= 8
    ensures |WorstCase(i)| == i && |WorstCase(n)| == n && WorstCase(n)[..i] == WorstCase(i)
    decreases n
  {
    if n > 0 {
      WorstCasePrefix(if i < n then i else n - 1, n - 1);
      if i == n { assert WorstCase(n)[..n] == WorstCase(n); }
    }
  }

  lemma LiveStaysLive(row: Row, now: Time, http: int -> string)
    requires Live(row) && row.attempts < 7
    ensures var again := Attempted(row, TransportError(""), now, http);
      && Live(again) && again.attempts == row.attempts + 1
      && again.lastAttempt == Some(now) && again.nextRetry == Some(now + BACKOFF[row.attempts])
  {
  }

  lemma {:induction false} WorstCaseStep(n: nat, http: int -> string)
    requires n <= 7
    ensures Live(After(WorstCase(n), http)) && After(WorstCase(n), http).attempts == n
    ensures Scheduled(WorstCase(n), http) == FirstBackoffs(n)
  {
    if n > 0 {
      WorstCaseStep(n - 1, http);
      WorstCasePrefix(n - 1, n);
      LiveStaysLive(After(WorstCase(n - 1), http), FirstBackoffs(n - 1), http);
    }
  }

  /** The bound is tight. */
  lemma TotalBackoffIsReached(http: int -> string)
    ensures Proper(WorstCase(8), http) && Scheduled(WorstCase(8), http) == 13980
  {
    forall i | 0 <= i < 8 ensures Live(After(WorstCase(8)[..i], http)) {
      WorstCasePrefix(i, 8);
      WorstCaseStep(i, http);
    }
    WorstCasePrefix(7, 8);
    WorstCaseStep(7, http);
    SevenBackoffs();
  }

  // ---- the rows a dispatch picks ----

  // delivered_at IS NULL AND (next_retry_at IS NULL OR next_retry_at <= now)
  predicate Due(row: Row, now: Time) {
    row.deliveredAt.None? && (row.nextRetry.None? || row.nextRetry.value <= now)
  }

  /** A dispatch picks the live rows whose time has come, and the failed ones too: a permanent failure is sent again
      at every dispatch. */
  lemma DueExactly(tries: seq<Try>, http: int -> string, now: Time)
    requires Proper(tries, http)
    ensures var row := After(tries, http);
      Due(row, now) <==> Is(row, Failed) || (Live(row) && (row.nextRetry.Some? ==> row.nextRetry.value <= now))
  {
    PhaseExactly(tries, http);
    if tries != [] { ProperFront(tries, http); }
  }

  /** A failed row that is sent again may go back to waiting: exactly when it failed before the eighth attempt and the
      new response is a transient error. The backoff index stays in range however often that happens. */
  lemma FailedMayRevive(row: Row, r: Response, now: Time, http: int -> string)
    requires Is(row, Failed)
    ensures
      var again := Attempted(row, r, now, http);
      Is(again, RetryPending) <==>
        row.attempts + 1 < 8 && (r.TransportError? || r.code in {408, 425, 429} || (r.code >= 500))
  {
  }
}
