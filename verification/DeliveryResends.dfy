/** Why a message reaches the provider at most once only in undisturbed runs: each step that
    `DeliveryProtocol.Undisturbed` excludes leads to one more acceptance. */
module DeliveryResends {
  import opened Prelude
  import opened OutboundMessages
  import opened DeliveryProtocol
  import opened DeliveryLimits

  /** The next attempt number has not been used. */
  predicate NumberIsFree(s: State) {
    s.tables.row.attemptCount + 1 !in s.tables.attempts
  }

  /** Another job sends the message: it loads and claims the row, opens its attempt, and the provider accepts. */
  function Resent(s: State, w: nat, leaseMs: Time): State {
    Step(Step(Step(Step(s, Load(w)), Claim(w, s.now, leaseMs)), StartAttempt(w)), ProviderAccepts(w))
  }

  /** A row that may be sent, and whose next number is free, reaches the provider once more. */
  lemma SendableIsAccepted(s: State, w: nat, leaseMs: Time)
    requires PhaseOf(s, w).Idle? && Sendable(s.tables.row, s.now) && NumberIsFree(s)
    ensures Resent(s, w, leaseMs).accepted == s.accepted + [s.tables.row.attemptCount + 1]
  {
    var claimed := Step(Step(s, Load(w)), Claim(w, s.now, leaseMs));
    assert PhaseOf(claimed, w).Holding? && PhaseOf(claimed, w).attempt == s.tables.row.attemptCount + 1;
    assert claimed.tables.attempts == s.tables.attempts && claimed.accepted == s.accepted;
  }

  /** A job that stops between acceptance and commit. */
  lemma StopsResend(s: State, v: nat, w: nat, leaseMs: Time)
    requires Exclusive(s) && v != w && PhaseOf(s, v).Sending? && PhaseOf(s, w).Idle?
    requires Due(s.tables.row.nextAttemptAt, s.now) && NumberIsFree(s)
    ensures var open := Step(Step(s, Stop(v)), Tick(PhaseOf(s, v).leaseUntil + 1));
            && !Undisturbed(s, Stop(v)) && Disciplined(s, Stop(v))
            && Undisturbed(Step(s, Stop(v)), Tick(PhaseOf(s, v).leaseUntil + 1))
            && Resent(open, w, leaseMs).accepted == s.accepted + [s.tables.row.attemptCount + 1]
  {
    SendableIsAccepted(Step(Step(s, Stop(v)), Tick(PhaseOf(s, v).leaseUntil + 1)), w, leaseMs);
  }

  /** A job that fails after the provider accepted, before its commit or after it, and a replay of the dead
      letter it leaves. */
  lemma FailuresResend(s: State, v: nat, w: nat, o: nat, retryable: bool, delay: Time, code: string, leaseMs: Time)
    requires v != w && (PhaseOf(s, v).Sending? || PhaseOf(s, v).Announcing?) && PhaseOf(s, w).Idle?
    requires PhaseOf(s, v).Announcing? ==> s.tables.row.status != Processing
    requires PhaseOf(s, v).attempt in s.tables.attempts && NumberIsFree(s)
    ensures var failed := Step(s, Throw(v, retryable, delay, code));
            var replayed := Step(Step(failed, Check(o, Replaying)), Write(o));
            && !Undisturbed(s, Throw(v, retryable, delay, code)) && Disciplined(s, Throw(v, retryable, delay, code))
            && Undisturbed(failed, Check(o, Replaying)) && Undisturbed(Step(failed, Check(o, Replaying)), Write(o))
            && Resent(replayed, w, leaseMs).accepted == s.accepted + [s.tables.row.attemptCount + 1]
  {
    var failed := Step(s, Throw(v, retryable, delay, code));
    assert failed.tables.row.status == DeadLetter && failed.tables.row.attemptCount == s.tables.row.attemptCount;
    assert failed.tables.attempts.Keys == s.tables.attempts.Keys;
    ReplayedIsAccepted(failed, w, o, leaseMs);
  }

  lemma ReplayOpens(s: State, o: nat)
    requires s.tables.row.status == DeadLetter
    ensures var replayed := Step(Step(s, Check(o, Replaying)), Write(o));
            && Undisturbed(s, Check(o, Replaying)) && Undisturbed(Step(s, Check(o, Replaying)), Write(o))
            && replayed.tables == s.tables.(row := Replayed(s.tables.row, s.now))
            && replayed.now == s.now && replayed.workers == s.workers && replayed.accepted == s.accepted
  {
  }

  lemma ReplayedIsAccepted(s: State, w: nat, o: nat, leaseMs: Time)
    requires s.tables.row.status == DeadLetter && PhaseOf(s, w).Idle? && s.tables.row.attemptCount + 1 !in s.tables.attempts.Keys
    ensures var replayed := Step(Step(s, Check(o, Replaying)), Write(o));
            && Undisturbed(s, Check(o, Replaying)) && Undisturbed(Step(s, Check(o, Replaying)), Write(o))
            && Resent(replayed, w, leaseMs).accepted == s.accepted + [s.tables.row.attemptCount + 1]
  {
    ReplayOpens(s, o);
    var replayed := Step(Step(s, Check(o, Replaying)), Write(o));
    assert NumberIsFree(replayed) && PhaseOf(replayed, w).Idle?;
    SendableIsAccepted(replayed, w, leaseMs);
  }

  /** A replay that was decided before the message was sent and is written after. */
  lemma StaleReplaysResend(s: State, w: nat, o: nat, leaseMs: Time)
    requires s.tables.row.status in {Sent, Delivered} && PhaseOf(s, w).Idle? && NumberIsFree(s)
    requires o in s.operators && s.operators[o] == Replaying
    ensures !Undisturbed(s, Write(o)) && Disciplined(s, Write(o))
    ensures Resent(Step(s, Write(o)), w, leaseMs).accepted == s.accepted + [s.tables.row.attemptCount + 1]
  {
    SendableIsAccepted(Step(s, Write(o)), w, leaseMs);
  }

  /** A cancel written over a sent row, which lets such a replay be written over the cancelled one. */
  lemma StaleCancelsResend(s: State, w: nat, c: nat, o: nat, leaseMs: Time)
    requires s.tables.row.status in {Sent, Delivered} && PhaseOf(s, w).Idle? && NumberIsFree(s)
    requires c in s.operators && s.operators[c] == Cancelling && o in s.operators && s.operators[o] == Replaying
    ensures var cancelled := Step(s, Write(c));
            && !Undisturbed(s, Write(c)) && Disciplined(s, Write(c)) && Undisturbed(cancelled, Write(o))
            && Resent(Step(cancelled, Write(o)), w, leaseMs).accepted == s.accepted + [s.tables.row.attemptCount + 1]
  {
    SendableIsAccepted(Step(Step(s, Write(c)), Write(o)), w, leaseMs);
  }

  /** A failure called back for a sent message. */
  lemma FailureCallbacksResend(s: State, w: nat, id: string, cb: CallbackStatus, at: Time, leaseMs: Time)
    requires s.tables.row.status == Sent && s.tables.row.providerMessageId == Some(id) && Requested(cb) == Failed
    requires PhaseOf(s, w).Idle? && Due(s.tables.row.nextAttemptAt, s.now) && NumberIsFree(s)
    ensures !Undisturbed(s, Callback(id, cb, at)) && Disciplined(s, Callback(id, cb, at))
    ensures Resent(Step(s, Callback(id, cb, at)), w, leaseMs).accepted == s.accepted + [s.tables.row.attemptCount + 1]
  {
    SendableIsAccepted(Step(s, Callback(id, cb, at)), w, leaseMs);
  }

  /** A lease that runs out while its job has yet to commit. */
  lemma LeaseOverrunsResend(s: State, v: nat, w: nat, to: Time, leaseMs: Time)
    requires Exclusive(s) && v != w && PhaseOf(s, v).Sending? && PhaseOf(s, w).Idle? && to > PhaseOf(s, v).leaseUntil
    requires Due(s.tables.row.nextAttemptAt, s.now) && NumberIsFree(s)
    ensures !Disciplined(s, Tick(to))
    ensures Resent(Step(s, Tick(to)), w, leaseMs).accepted == s.accepted + [s.tables.row.attemptCount + 1]
  {
    SendableIsAccepted(Step(s, Tick(to)), w, leaseMs);
  }

  /** The states these start from are reached by any fresh message: accepted, with a replay and a cancel
      decided meanwhile, and then committed. */
  lemma SentUnderDecisions(s: State, v: nat, id: string, c: nat, o: nat)
    requires Exclusive(s) && PhaseOf(s, v).Sending? && s.tables.externals == [] && c != o
    ensures var decided := Run(s, [Check(o, Replaying), Check(c, Cancelling)]);
            var sent := Step(decided, Commit(v, id, false));
            && DisciplinedRun(s, [Check(o, Replaying), Check(c, Cancelling)])
            && PhaseOf(sent, v).Announcing?
            && sent.tables.row.status == Sent && sent.tables.row.providerMessageId == Some(id)
            && sent.tables.row.nextAttemptAt.None? && sent.tables.row.attemptCount == s.tables.row.attemptCount
            && c in sent.operators && sent.operators[c] == Cancelling && o in sent.operators && sent.operators[o] == Replaying
  {
    DecisionsWait(s, c, o);
    CommitSends(Run(s, [Check(o, Replaying), Check(c, Cancelling)]), v, id);
  }

  lemma DecisionsWait(s: State, c: nat, o: nat)
    requires s.tables.row.status == Processing && c != o
    ensures var decided := Run(s, [Check(o, Replaying), Check(c, Cancelling)]);
            && DisciplinedRun(s, [Check(o, Replaying), Check(c, Cancelling)])
            && decided.tables == s.tables && decided.workers == s.workers
            && c in decided.operators && decided.operators[c] == Cancelling
            && o in decided.operators && decided.operators[o] == Replaying
  {
    RunTwo(s, Check(o, Replaying), Check(c, Cancelling));
  }

  lemma CommitSends(s: State, v: nat, id: string)
    requires PhaseOf(s, v).Sending? && s.tables.externals == []
    ensures var sent := Step(s, Commit(v, id, false));
            && PhaseOf(sent, v).Announcing? && sent.operators == s.operators
            && sent.tables.row.status == Sent && sent.tables.row.providerMessageId == Some(id)
            && sent.tables.row.nextAttemptAt.None? && sent.tables.row.attemptCount == s.tables.row.attemptCount
  {
  }

  lemma AcceptedIsReached(text: string, maxAttempts: nat)
    ensures var s := Run(Run(Initial(text, maxAttempts), [Load(1), Claim(1, 0, 10)]), [StartAttempt(1), ProviderAccepts(1)]);
            && Exclusive(s) && PhaseOf(s, 1).Sending? && PhaseOf(s, 2).Idle? && s.tables.externals == []
            && Due(s.tables.row.nextAttemptAt, s.now) && NumberIsFree(s) && PhaseOf(s, 1).attempt in s.tables.attempts
  {
    SendingIsReached(text, maxAttempts);
    HoldingIsReached(text, maxAttempts);
    var held := Run(Initial(text, maxAttempts), [Load(1), Claim(1, 0, 10)]);
    RunTwo(held, StartAttempt(1), ProviderAccepts(1));
  }
}
