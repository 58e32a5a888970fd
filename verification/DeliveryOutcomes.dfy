/** What each write of a delivery leaves, in plain statuses and columns. */
module DeliveryOutcomes {
  import opened Prelude
  import opened OutboundMessages
  import opened DeliveryJobs
  import Delivery = DeliveryProtocol

  /** Which jobs get to send: the message is unfinished, due, and not held under a lease that still runs. */
  lemma JobsThatClaim(t: Tables, now: Time, job: nat, leaseMs: Time, baseMs: int, answer: Answer)
    ensures var (after, outcome) := Job(t, now, job, leaseMs, baseMs, answer);
            var done := t.row.status == Sent || t.row.status == Delivered || t.row.status == Cancelled || t.row.status == DeadLetter;
            var early := t.row.nextAttemptAt.Some? && t.row.nextAttemptAt.value > now;
            var held := t.row.status == Processing && t.row.leaseExpiresAt.Some? && t.row.leaseExpiresAt.value >= now;
            && (outcome == Skipped <==> done)
            && (outcome == Delayed <==> !done && early)
            && (outcome == AlreadyClaimed <==> !done && !early && held)
            && (done || early || held ==> after == t)
            && (outcome == AttemptExists <==> !done && !early && !held && t.row.attemptCount + 1 in t.attempts)
  {
  }

  /** A job that is accepted numbers its attempt, sends the row's text once, and closes the row. */
  lemma AcceptedJobLeaves(t: Tables, now: Time, job: nat, leaseMs: Time, baseMs: int, id: string, delivered: bool)
    requires Job(t, now, job, leaseMs, baseMs, Accepts(id, delivered)).1 == SentOut
    ensures var after := Job(t, now, job, leaseMs, baseMs, Accepts(id, delivered)).0;
            && t.externals == [] && after.externals == [t.row.textBody]
            && after.attempts == t.attempts[t.row.attemptCount + 1 := Succeeded]
            && after.failures == t.failures
            && after.row.attemptCount == t.row.attemptCount + 1
            && after.row.status == (if delivered then Delivered else Sent)
            && after.row.sentAt == Some(now) && after.row.deliveredAt == (if delivered then Some(now) else None)
            && after.row.providerMessageId == Some(id) && after.row.lastErrorCode == None
            && after.row.leaseOwner == None && after.row.leaseExpiresAt == None && after.row.nextAttemptAt == None
            && after.row.failedAt == t.row.failedAt
            && after.row.textBody == t.row.textBody && after.row.maxAttempts == t.row.maxAttempts
  {
  }

  /** A job that is refused is tried again after the backoff delay if the refusal allows it and attempts are
      left; otherwise the message is given up, and an operational failure says at which attempt. */
  lemma RefusedJobLeaves(t: Tables, now: Time, job: nat, leaseMs: Time, baseMs: int, retryable: bool, code: string)
    requires Job(t, now, job, leaseMs, baseMs, Refuses(retryable, code)).1.GivenUp?
    ensures var (after, outcome) := Job(t, now, job, leaseMs, baseMs, Refuses(retryable, code));
            var n := t.row.attemptCount + 1;
            var again := retryable && n < t.row.maxAttempts;
            && outcome.retried == again && after.row.attemptCount == n
            && after.row.status == (if again then RetryScheduled else DeadLetter)
            && after.row.nextAttemptAt == (if again then Some(now + Capped(baseMs, n) + Capped(baseMs, n) / 5) else None)
            && after.row.failedAt == (if again then None else Some(now))
            && after.row.lastErrorCode == Some(code) && after.row.leaseOwner == None && after.row.leaseExpiresAt == None
            && after.attempts == t.attempts[n := if again then RetryableFailure else PermanentFailure]
            && after.failures == (if again then t.failures else t.failures + [n])
            && after.externals == t.externals
            && after.row.textBody == t.row.textBody && after.row.maxAttempts == t.row.maxAttempts
            && after.row.sentAt == t.row.sentAt && after.row.deliveredAt == t.row.deliveredAt
            && after.row.providerMessageId == t.row.providerMessageId
  {
    BackoffDoubles(baseMs, t.row.attemptCount + 1);
  }

  /** Where an external message is stored already, a further acceptance stores none and the message is given up. */
  lemma SecondAcceptanceLeaves(t: Tables, now: Time, job: nat, leaseMs: Time, baseMs: int, id: string, delivered: bool)
    requires Job(t, now, job, leaseMs, baseMs, Accepts(id, delivered)).1.GivenUp?
    ensures var (after, outcome) := Job(t, now, job, leaseMs, baseMs, Accepts(id, delivered));
            && !outcome.retried && t.externals != [] && after.externals == t.externals
            && after.row.status == DeadLetter && after.row.attemptCount == t.row.attemptCount + 1
            && after.row.nextAttemptAt == None && after.row.failedAt == Some(now)
            && after.row.lastErrorCode == Some("UNKNOWN") && after.row.leaseExpiresAt == None
            && after.attempts == t.attempts[t.row.attemptCount + 1 := PermanentFailure]
            && after.failures == t.failures + [t.row.attemptCount + 1]
  {
  }

  /** A job whose attempt number is taken stops with the lease in hand. */
  lemma BlockedJobLeaves(t: Tables, now: Time, job: nat, leaseMs: Time, baseMs: int, answer: Answer)
    requires Job(t, now, job, leaseMs, baseMs, answer).1 == AttemptExists
    ensures var after := Job(t, now, job, leaseMs, baseMs, answer).0;
            && after.row.status == Processing && after.row.attemptCount == t.row.attemptCount + 1
            && after.row.leaseOwner == Some(job) && after.row.leaseExpiresAt == Some(now + leaseMs)
            && after.attempts == t.attempts && after.failures == t.failures && after.externals == t.externals
  {
  }

  /** Replay and cancel are refused for finished messages, each for its own list. */
  lemma OperatorWrites(row: Row, now: Time)
    ensures !ReplayAllowed(row.status) <==> row.status == Sent || row.status == Delivered || row.status == Cancelled
    ensures !CancelAllowed(row.status) <==> row.status == Sent || row.status == Delivered || row.status == DeadLetter
    ensures var r := Replayed(row, now);
            && r.status == Pending && r.nextAttemptAt == Some(now) && r.leaseOwner == None && r.leaseExpiresAt == None
            && r.lastErrorCode == None && r.attemptCount == row.attemptCount && r.maxAttempts == row.maxAttempts
            && r.textBody == row.textBody && r.failedAt == row.failedAt && r.sentAt == row.sentAt
            && r.deliveredAt == row.deliveredAt && r.providerMessageId == row.providerMessageId
    ensures var r := CancelledRow(row, now);
            && r.status == Cancelled && r.failedAt == Some(now) && r.leaseOwner == None && r.leaseExpiresAt == None
            && r.nextAttemptAt == row.nextAttemptAt && r.attemptCount == row.attemptCount && r.maxAttempts == row.maxAttempts
            && r.textBody == row.textBody && r.sentAt == row.sentAt && r.deliveredAt == row.deliveredAt
            && r.providerMessageId == row.providerMessageId && r.lastErrorCode == row.lastErrorCode
  {
  }

  /** What each provider callback does to a row that carries its message id. */
  lemma CallbackWrites(row: Row, cb: CallbackStatus, at: Time)
    ensures var r := CalledBack(row, cb, at);
            && (row.status == Delivered ==> r == row)
            && (row.status != Delivered && cb == CbDelivered ==>
                  r.status == Delivered && r.deliveredAt == Some(at) && r.failedAt == row.failedAt && r.lastErrorCode == None)
            && (row.status != Delivered && (cb == CbBounced || cb == CbRejected || cb == CbFailed) ==>
                  && r.status == Failed && r.failedAt == Some(at) && r.deliveredAt == row.deliveredAt
                  && r.lastErrorCode == Some(if cb == CbBounced then "BOUNCED" else if cb == CbRejected then "REJECTED" else "FAILED"))
            && (cb == CbAccepted || cb == CbSent ==>
                  && (row.status == Sent ==> r == row)
                  && (row.status != Sent && row.status != Delivered ==>
                        r.status == Sent && r.deliveredAt == row.deliveredAt && r.failedAt == row.failedAt && r.lastErrorCode == None))
            && r.textBody == row.textBody && r.attemptCount == row.attemptCount && r.maxAttempts == row.maxAttempts
            && r.nextAttemptAt == row.nextAttemptAt && r.leaseOwner == row.leaseOwner && r.leaseExpiresAt == row.leaseExpiresAt
            && r.providerMessageId == row.providerMessageId && r.sentAt == row.sentAt
  {
  }

  // A job that nothing disturbs.

  /** Load, claim and open the attempt; a step that is not enabled changes nothing. */
  function Begun(s: Delivery.State, w: nat, leaseMs: Time): Delivery.State {
    Delivery.Step(Delivery.Step(Delivery.Step(s, Delivery.Load(w)), Delivery.Claim(w, s.now, leaseMs)), Delivery.StartAttempt(w))
  }

  /** Refused by the provider. */
  function RunRefused(s: Delivery.State, w: nat, leaseMs: Time, baseMs: int, retryable: bool, code: string): Delivery.State {
    var thrown := Delivery.Throw(w, retryable, BackoffDelay(baseMs, s.tables.row.attemptCount + 1), code);
    Delivery.Step(Delivery.Step(Begun(s, w, leaseMs), thrown), Delivery.Stop(w))
  }

  /** Accepted by the provider; if the commit is a violation, that is thrown. */
  function RunAccepted(s: Delivery.State, w: nat, leaseMs: Time, id: string, delivered: bool): Delivery.State {
    var sent := Delivery.Step(Delivery.Step(Begun(s, w, leaseMs), Delivery.ProviderAccepts(w)), Delivery.Commit(w, id, delivered));
    Delivery.Step(if s.tables.externals != [] then Delivery.Step(sent, Delivery.Throw(w, false, 0, "UNKNOWN")) else sent,
                  Delivery.Stop(w))
  }

  lemma BegunLeaves(s: Delivery.State, w: nat, leaseMs: Time)
    requires Delivery.PhaseOf(s, w) == Delivery.Idle
    ensures var row, b := s.tables.row, Begun(s, w, leaseMs);
            var claims := PassesLoadChecks(row, s.now) && ClaimGuard(row, s.now);
            var n := row.attemptCount + 1;
            var claimed := s.tables.(row := Claimed(row, w, s.now, leaseMs, n));
            && b.now == s.now
            && (!claims ==> b.tables == s.tables && (Delivery.PhaseOf(b, w).Idle? || Delivery.PhaseOf(b, w).Loaded?))
            && (claims && n in s.tables.attempts ==> b.tables == claimed && Delivery.PhaseOf(b, w).Idle?)
            && (claims && n !in s.tables.attempts ==>
                  && OpenAttempt(claimed, n) == Some(b.tables)
                  && Delivery.PhaseOf(b, w) == Delivery.Trying(row, n, s.now + leaseMs))
  {
    var loaded := Delivery.Step(s, Delivery.Load(w));
    var held := Delivery.Step(loaded, Delivery.Claim(w, s.now, leaseMs));
    assert loaded.tables == s.tables && loaded.now == s.now;
  }

  /** The interleaved protocol refines to the job: the steps of one job with nothing in between leave the tables
      that the job leaves. */
  lemma UndisturbedRefusedJob(s: Delivery.State, w: nat, leaseMs: Time, baseMs: int, retryable: bool, code: string)
    requires Delivery.PhaseOf(s, w) == Delivery.Idle
    ensures RunRefused(s, w, leaseMs, baseMs, retryable, code).tables ==
              Job(s.tables, s.now, w, leaseMs, baseMs, Refuses(retryable, code)).0
  {
    BegunLeaves(s, w, leaseMs);
  }

  /** From the open attempt on, once the provider has accepted. */
  lemma AcceptedEnds(b: Delivery.State, w: nat, n: nat, baseMs: int, id: string, delivered: bool)
    requires Delivery.PhaseOf(b, w).Trying? && Delivery.PhaseOf(b, w).attempt == n
    requires Delivery.PhaseOf(b, w).snapshot.textBody == b.tables.row.textBody
    ensures var sent := Delivery.Step(Delivery.Step(b, Delivery.ProviderAccepts(w)), Delivery.Commit(w, id, delivered));
            var ended := if b.tables.externals != [] then Delivery.Step(sent, Delivery.Throw(w, false, 0, "UNKNOWN")) else sent;
            ended.tables == Finish(b.tables, n, b.now, baseMs, Accepts(id, delivered)).0
  {
    var accepted := Delivery.Step(b, Delivery.ProviderAccepts(w));
    assert accepted.tables == b.tables && accepted.now == b.now && Delivery.PhaseOf(accepted, w).Sending?;
  }

  /** Steps of a worker that has nothing in hand change no table. */
  lemma IdleStepsLeave(s: Delivery.State, w: nat, a: Delivery.Action)
    requires Delivery.PhaseOf(s, w).Idle? || Delivery.PhaseOf(s, w).Loaded?
    requires a.ProviderAccepts? || a.Commit? || a.Throw? || a.Stop?
    requires a.w == w
    ensures var after := Delivery.Step(s, a);
            after.tables == s.tables && (Delivery.PhaseOf(after, w).Idle? || Delivery.PhaseOf(after, w).Loaded?)
  {
  }

  lemma UnclaimedEnds(b: Delivery.State, w: nat, id: string, delivered: bool)
    requires Delivery.PhaseOf(b, w).Idle? || Delivery.PhaseOf(b, w).Loaded?
    ensures var sent := Delivery.Step(Delivery.Step(b, Delivery.ProviderAccepts(w)), Delivery.Commit(w, id, delivered));
            sent.tables == b.tables && Delivery.Step(sent, Delivery.Throw(w, false, 0, "UNKNOWN")).tables == b.tables
  {
    var a := Delivery.Step(b, Delivery.ProviderAccepts(w));
    IdleStepsLeave(b, w, Delivery.ProviderAccepts(w));
    IdleStepsLeave(a, w, Delivery.Commit(w, id, delivered));
    IdleStepsLeave(Delivery.Step(a, Delivery.Commit(w, id, delivered)), w, Delivery.Throw(w, false, 0, "UNKNOWN"));
  }

  lemma UndisturbedAcceptedJob(s: Delivery.State, w: nat, leaseMs: Time, baseMs: int, id: string, delivered: bool)
    requires Delivery.PhaseOf(s, w) == Delivery.Idle
    ensures RunAccepted(s, w, leaseMs, id, delivered).tables ==
              Job(s.tables, s.now, w, leaseMs, baseMs, Accepts(id, delivered)).0
  {
    BegunLeaves(s, w, leaseMs);
    var b, n := Begun(s, w, leaseMs), s.tables.row.attemptCount + 1;
    if Delivery.PhaseOf(b, w).Trying? {
      AcceptedEnds(b, w, n, baseMs, id, delivered);
    } else {
      UnclaimedEnds(b, w, id, delivered);
    }
  }

  /** A job goes on with the row it loads only if the message is not finished. */
  lemma FinishedRowsAreNotTaken(s: Delivery.State, w: nat)
    ensures var status := s.tables.row.status;
            Delivery.Step(s, Delivery.Load(w)) != s ==> status != Sent && status != Delivered && status != Cancelled && status != DeadLetter
  {
  }
}
