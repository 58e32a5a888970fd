/** The outbound message row, and every database write that changes it. Each function below is one
    committed write; `DeliveryStore` performs the same writes in place. */
module OutboundMessages {
  import opened Prelude

  datatype Status =
    | Pending | Processing | Sent | Delivered | RetryScheduled | Failed | DeadLetter | Cancelled

  datatype Row = Row(
    status: Status,
    textBody: string,
    attemptCount: nat,
    maxAttempts: nat,
    nextAttemptAt: Option<Time>,
    leaseOwner: Option<nat>,
    leaseExpiresAt: Option<Time>,
    providerMessageId: Option<string>,
    sentAt: Option<Time>,
    deliveredAt: Option<Time>,
    failedAt: Option<Time>,
    lastErrorCode: Option<string>)

  datatype AttemptOutcome = Unknown | Succeeded | RetryableFailure | PermanentFailure

  /** The rows a delivery job touches: the message, its attempts by number, the operational failures
      recorded for it (by attempt number) and the texts of its outbound external messages. */
  datatype Tables = Tables(
    row: Row,
    attempts: map<nat, AttemptOutcome>,
    failures: seq<nat>,
    externals: seq<string>)

  datatype CallbackStatus = CbAccepted | CbSent | CbDelivered | CbBounced | CbRejected | CbFailed

  /** The row an approval creates. */
  function Fresh(textBody: string, maxAttempts: nat): Row {
    Row(Pending, textBody, 0, maxAttempts, None, None, None, None, None, None, None, None)
  }

  predicate Terminal(status: Status) {
    status in {Sent, Delivered, Cancelled, DeadLetter}
  }

  /** The worker's checks on the row it has loaded. */
  predicate PassesLoadChecks(row: Row, now: Time) {
    !Terminal(row.status) && Due(row.nextAttemptAt, now)
  }

  /** The `where` clause of the lease claim. */
  predicate ClaimGuard(row: Row, now: Time) {
    && row.status in {Pending, RetryScheduled, Failed, Processing}
    && (row.leaseExpiresAt.None? || row.leaseExpiresAt.value < now || row.status != Processing)
  }

  /** The reconciler's filter. */
  predicate Candidate(row: Row, now: Time) {
    || (row.status in {Pending, Failed, RetryScheduled} && Due(row.nextAttemptAt, now))
    || (row.status == Processing && row.leaseExpiresAt.Some? && row.leaseExpiresAt.value < now)
  }

  function Claimed(row: Row, job: nat, now: Time, leaseMs: Time, attempt: nat): Row {
    row.(status := Processing, leaseOwner := Some(job), leaseExpiresAt := Some(now + leaseMs),
         attemptCount := attempt)
  }

  function Accepted(row: Row, providerMessageId: string, acceptedAt: Time, delivered: bool): Row {
    row.(providerMessageId := Some(providerMessageId),
         status := if delivered then Delivered else Sent,
         sentAt := Some(acceptedAt),
         deliveredAt := if delivered then Some(acceptedAt) else None,
         leaseOwner := None, leaseExpiresAt := None, nextAttemptAt := None, lastErrorCode := None)
  }

  /** Whether a failed attempt is tried again. `maxAttempts` comes from the row loaded before the claim. */
  predicate CanRetry(retryable: bool, attempt: nat, maxAttempts: nat) {
    retryable && attempt < maxAttempts
  }

  function Rejected(row: Row, canRetry: bool, now: Time, delay: Time, code: string): Row {
    row.(status := if canRetry then RetryScheduled else DeadLetter,
         failedAt := if canRetry then None else Some(now),
         nextAttemptAt := if canRetry then Some(now + delay) else None,
         leaseOwner := None, leaseExpiresAt := None, lastErrorCode := Some(code))
  }

  predicate ReplayAllowed(status: Status) {
    status !in {Sent, Delivered, Cancelled}
  }

  function Replayed(row: Row, now: Time): Row {
    row.(status := Pending, nextAttemptAt := Some(now), leaseOwner := None, leaseExpiresAt := None,
         lastErrorCode := None)
  }

  predicate CancelAllowed(status: Status) {
    status !in {Sent, Delivered, DeadLetter}
  }

  function CancelledRow(row: Row, now: Time): Row {
    row.(status := Cancelled, failedAt := Some(now), leaseOwner := None, leaseExpiresAt := None)
  }

  /** The row status a provider callback asks for. */
  function Requested(cb: CallbackStatus): Status {
    match cb
    case CbDelivered => Delivered
    case CbBounced | CbRejected | CbFailed => Failed
    case CbAccepted | CbSent => Sent
  }

  function UpperCase(cb: CallbackStatus): string {
    match cb
    case CbAccepted => "ACCEPTED" case CbSent => "SENT" case CbDelivered => "DELIVERED"
    case CbBounced => "BOUNCED" case CbRejected => "REJECTED" case CbFailed => "FAILED"
  }

  predicate CallbackIgnored(row: Row, cb: CallbackStatus) {
    row.status == Delivered || (row.status == Sent && Requested(cb) == Sent)
  }

  /** A callback whose provider message id is the row's own. */
  function CalledBack(row: Row, cb: CallbackStatus, occurredAt: Time): Row {
    if CallbackIgnored(row, cb) then row
    else
      var next := Requested(cb);
      row.(status := next,
           deliveredAt := if next == Delivered then Some(occurredAt) else row.deliveredAt,
           failedAt := if next == Failed then Some(occurredAt) else row.failedAt,
           lastErrorCode := if next == Failed then Some(UpperCase(cb)) else None)
  }

  // Backoff.

  function Pow2(n: nat): nat {
    if n == 0 then 1 else 2 * Pow2(n - 1)
  }

  function Max(a: int, b: int): int { if a < b then b else a }

  function Min(a: int, b: int): int { if a < b then a else b }

  /** `backoffDelayMs`: `configured` is the configured base delay, of which at least 100 is used. */
  function BackoffDelay(configured: int, attempt: nat): Time {
    var base := Max(configured, 100);
    var capped := Min(base * Pow2(Max(attempt - 1, 0)), 60_000);
    assert base * Pow2(Max(attempt - 1, 0)) >= 0;
    capped + capped / 5
  }

  // Whole writes, on the tables.

  function OpenAttempt(t: Tables, attempt: nat): (r: Option<Tables>)
  {
    if attempt in t.attempts then None else Some(t.(attempts := t.attempts[attempt := Unknown]))
  }

  /** The success transaction. The external message is unique per provider message id, and that id is
      a function of the message alone, so a second one is a constraint violation. */
  function CommitAccepted(t: Tables, attempt: nat, text: string, providerMessageId: string,
                          acceptedAt: Time, delivered: bool): Option<Tables>
  {
    if t.externals != [] then None
    else Some(t.(row := Accepted(t.row, providerMessageId, acceptedAt, delivered),
                 externals := t.externals + [text],
                 attempts := t.attempts[attempt := Succeeded]))
  }

  /** The failure transaction. */
  function CommitRejected(t: Tables, attempt: nat, canRetry: bool, now: Time, delay: Time, code: string): Tables
  {
    t.(row := Rejected(t.row, canRetry, now, delay, code),
       attempts := t.attempts[attempt := if canRetry then RetryableFailure else PermanentFailure],
       failures := if canRetry then t.failures else t.failures + [attempt])
  }

  // What the filters mean for a stored row.

  /** What every write keeps: a row being processed carries a lease. */
  predicate Leased(row: Row) {
    row.status == Processing ==> row.leaseExpiresAt.Some?
  }

  lemma WritesKeepLeased(row: Row, job: nat, attempt: nat, now: Time, span: Time, id: string, flag: bool,
                         code: string, cb: CallbackStatus)
    requires Leased(row)
    ensures Leased(Claimed(row, job, now, span, attempt))
    ensures Leased(Accepted(row, id, now, flag))
    ensures Leased(Rejected(row, flag, now, span, code))
    ensures Leased(Replayed(row, now)) && Leased(CancelledRow(row, now))
    ensures Leased(CalledBack(row, cb, now))
  {
  }

  /** A row that a worker may load and claim at `now`. */
  predicate Sendable(row: Row, now: Time) {
    PassesLoadChecks(row, now) && ClaimGuard(row, now)
  }

  /** The reconciler wakes a job for exactly the sendable rows, and for one more kind: an expired lease
      whose retry time has not come yet, which the woken job puts off again. */
  lemma ReconcilerAgreesWithClaim(row: Row, now: Time)
    requires Leased(row)
    ensures Candidate(row, now) <==>
            || Sendable(row, now)
            || (row.status == Processing && row.leaseExpiresAt.value < now && !Due(row.nextAttemptAt, now))
  {
  }

  /** No stranded message: once the clock passes the lease and the retry time of an unfinished row,
      the reconciler selects it and the claim succeeds; a finished row never satisfies either. */
  lemma NothingStranded(row: Row, now: Time)
    requires Leased(row)
    ensures Terminal(row.status) ==> !Candidate(row, now) && !Sendable(row, now) && !ClaimGuard(row, now)
    ensures !Terminal(row.status) && Due(row.nextAttemptAt, now)
            && (row.leaseExpiresAt.Some? ==> row.leaseExpiresAt.value < now)
            ==> Candidate(row, now) && Sendable(row, now)
  {
  }
}
