/** Why the delivery protocol needs each of its conditions, and what it does not give even under them. */
module DeliveryLimits {
  import opened Prelude
  import opened OutboundMessages
  import opened DeliveryProtocol

  lemma RunTwo(s: State, a: Action, b: Action)
    ensures Run(s, [a, b]) == Step(Step(s, a), b)
    ensures DisciplinedRun(s, [a, b]) == (Disciplined(s, a) && Disciplined(Step(s, a), b))
  {
    var run := [a, b];
    RunOne(Step(s, a), run[1..]);
  }

  lemma RunOne(s: State, run: seq<Action>)
    requires |run| == 1
    ensures Run(s, run) == Step(s, run[0]) && DisciplinedRun(s, run) == Disciplined(s, run[0])
  {
    assert run[1..] == [];
  }

  /** An idle job on a row that may be sent holds its next attempt two steps later. */
  lemma NextAttempt(s: State, w: nat, leaseMs: Time)
    requires PhaseOf(s, w).Idle? && Sendable(s.tables.row, s.now)
    ensures var run := [Load(w), Claim(w, s.now, leaseMs)];
            && DisciplinedRun(s, run)
            && PhaseOf(Run(s, run), w).Holding? && PhaseOf(Run(s, run), w).attempt == s.tables.row.attemptCount + 1
            && forall u :: u != w ==> PhaseOf(Run(s, run), u) == PhaseOf(s, u)
  {
    RunTwo(s, Load(w), Claim(w, s.now, leaseMs));
  }

  ghost predicate TwoHolders(s: State) {
    exists v, w :: v != w && v in s.workers && w in s.workers && Holds(s.workers[v]) && Holds(s.workers[w])
  }

  /** A held row that can be loaded and claimed is two steps away from a second holder. */
  lemma SendableWhileHeld(s: State, v: nat, w: nat, leaseMs: Time)
    requires v != w && Holds(PhaseOf(s, v)) && PhaseOf(s, w).Idle? && Sendable(s.tables.row, s.now)
    ensures TwoHolders(Run(s, [Load(w), Claim(w, s.now, leaseMs)]))
  {
    NextAttempt(s, w, leaseMs);
    var claimed := Run(s, [Load(w), Claim(w, s.now, leaseMs)]);
    assert PhaseOf(claimed, v) == PhaseOf(s, v);
    assert v in claimed.workers && w in claimed.workers;
  }

  /** Three of the undisciplined steps open a held row: the clock passing the lease, a replay, and a callback
      reporting a failure (the last two whatever the lease says). */
  lemma UndisciplinedStepsOpenHeldRows(s: State, v: nat, a: Action)
    requires Exclusive(s) && v in s.workers && Holds(s.workers[v]) && Due(s.tables.row.nextAttemptAt, s.now)
    requires || (a.Tick? && a.to > s.workers[v].leaseUntil)
             || (a.Write? && a.o in s.operators && s.operators[a.o] == Replaying)
             || (a.Callback? && s.tables.row.providerMessageId == Some(a.providerMessageId) && Requested(a.cb) == Failed)
    ensures !Disciplined(s, a)
    ensures Holds(PhaseOf(Step(s, a), v)) && Sendable(Step(s, a).tables.row, Step(s, a).now)
  {
  }

  /** A cancel, or a callback, that finishes a held row is undone by the holder: its commit or its
      failure writes over the finished status. */
  lemma HoldersUndoForeignFinishes(s: State, v: nat, id: string, delay: Time, code: string)
    requires v in s.workers && s.workers[v].Sending? && Terminal(s.tables.row.status)
    ensures s.tables.externals == [] ==> Step(s, Commit(v, id, false)).tables.row.status == Sent
    ensures Step(s, Throw(v, false, delay, code)).tables.row.status == DeadLetter
  {
  }

  /** A cancel, or a callback that confirms a message, on a held row finishes it under its holder, and the
      holder's own failure, an ordinary step, then moves the finished row. */
  lemma FinishedHeldRowsMove(s: State, v: nat, a: Action, retryable: bool, delay: Time, code: string)
    requires Exclusive(s) && v in s.workers && s.workers[v].Sending?
    requires || (a.Write? && a.o in s.operators && s.operators[a.o] == Cancelling)
             || (a.Callback? && s.tables.row.providerMessageId == Some(a.providerMessageId) && Requested(a.cb) != Failed)
    ensures !Disciplined(s, a)
    ensures var finished := Step(s, a);
            var failure := Throw(v, retryable, delay, code);
            && Terminal(finished.tables.row.status) && PhaseOf(finished, v) == s.workers[v]
            && Disciplined(finished, failure)
            && Step(finished, failure).tables.row.status == DeadLetter != finished.tables.row.status
  {
  }

  /** A failure after a commit, while another job already holds the row again, dead-letters the held row; an
      operator may replay it, and a second job claims it beside the holder. */
  lemma LateFailureOnHeldRowBreaksExclusion(s: State, u: nat, v: nat, w: nat, o: nat, delay: Time, code: string, leaseMs: Time)
    requires Exclusive(s) && u != v && PhaseOf(s, u).Announcing? && Holds(PhaseOf(s, v)) && PhaseOf(s, w).Idle?
    ensures var late := Throw(u, false, delay, code);
            var dead := Step(s, late);
            var replayed := Run(dead, [Check(o, Replaying), Write(o)]);
            && !Disciplined(s, late)
            && DisciplinedRun(dead, [Check(o, Replaying), Write(o)])
            && TwoHolders(Run(replayed, [Load(w), Claim(w, replayed.now, leaseMs)]))
  {
    var dead := Step(s, Throw(u, false, delay, code));
    RunTwo(dead, Check(o, Replaying), Write(o));
    SendableWhileHeld(Run(dead, [Check(o, Replaying), Write(o)]), v, w, leaseMs);
  }

  lemma BouncedAfterCommit(s: State, u: nat, id: string, occurredAt: Time)
    requires PhaseOf(s, u).Sending? && s.tables.externals == [] && s.tables.row.status == Processing
    ensures var run := [Commit(u, id, false), Callback(id, CbFailed, occurredAt)];
            var failed := Run(s, run);
            && DisciplinedRun(s, run) && PhaseOf(failed, u).Announcing? && failed.now == s.now
            && Sendable(failed.tables.row, failed.now)
            && forall v :: v != u ==> PhaseOf(failed, v) == PhaseOf(s, v)
  {
    RunTwo(s, Commit(u, id, false), Callback(id, CbFailed, occurredAt));
  }

  /** That state is reached: a job commits, a callback reports the message failed, and the next job claims it. */
  lemma HeldBesideAnnouncingIsReached(s: State, u: nat, v: nat, id: string, occurredAt: Time, leaseMs: Time)
    requires Exclusive(s) && u != v && PhaseOf(s, u).Sending? && PhaseOf(s, v).Idle? && s.tables.externals == []
    ensures var failed := Run(s, [Commit(u, id, false), Callback(id, CbFailed, occurredAt)]);
            var held := Run(failed, [Load(v), Claim(v, failed.now, leaseMs)]);
            && DisciplinedRun(s, [Commit(u, id, false), Callback(id, CbFailed, occurredAt)])
            && DisciplinedRun(failed, [Load(v), Claim(v, failed.now, leaseMs)])
            && PhaseOf(held, u).Announcing? && PhaseOf(held, v).Holding?
  {
    BouncedAfterCommit(s, u, id, occurredAt);
    NextAttempt(Run(s, [Commit(u, id, false), Callback(id, CbFailed, occurredAt)]), v, leaseMs);
  }

  /** The lease is counted from a clock reading taken before the claim reaches the database, so a slow
      claim can start out expired, and another job can take the row at once. The slow claim is the one
      undisciplined step. */
  lemma LateClaimBreaksExclusion(s: State, v: nat, w: nat, at: Time, leaseMs: Time, leaseMs': Time)
    requires v != w && PhaseOf(s, w).Idle? && Due(s.tables.row.nextAttemptAt, s.now)
    requires PhaseOf(s, v).Loaded? && PhaseOf(s, v).loadedAt <= at && Due(PhaseOf(s, v).snapshot.nextAttemptAt, at)
    requires ClaimGuard(s.tables.row, at) && at + leaseMs < s.now
    ensures !Disciplined(s, Claim(v, at, leaseMs))
    ensures TwoHolders(Run(Step(s, Claim(v, at, leaseMs)), [Load(w), Claim(w, s.now, leaseMs')]))
  {
    SendableWhileHeld(Step(s, Claim(v, at, leaseMs)), v, w, leaseMs');
  }

  // What the discipline does not give.

  /** "A sent message is never resent" fails in a disciplined run: when the timeline append after a commit
      fails, the row goes from SENT to DEAD_LETTER with an operational failure, and an ordinary replay then
      lets the next job hand the message to the provider again. */
  lemma LateFailureResendsASentMessage(s: State, w: nat, id: string, retryable: bool, delay: Time, code: string)
    requires Exclusive(s) && PhaseOf(s, w).Sending? && s.tables.externals == []
    ensures var commit, late := Commit(w, id, false), Throw(w, retryable, delay, code);
            var after := Run(s, [commit, late]);
            && DisciplinedRun(s, [commit, late])
            && Step(s, commit).tables.row.status == Sent
            && after.tables.row.status == DeadLetter
            && after.tables.failures == s.tables.failures + [PhaseOf(s, w).attempt]
            && ReplayAllowed(after.tables.row.status)
            && Sendable(Replayed(after.tables.row, s.now), s.now)
  {
    RunTwo(s, Commit(w, id, false), Throw(w, retryable, delay, code));
  }

  // The states these start from are reached, by any fresh message, in disciplined runs.

  lemma LateClaimIsReached(text: string, maxAttempts: nat)
    ensures var run := [Load(1), Tick(11)];
            var s := Run(Initial(text, maxAttempts), run);
            && DisciplinedRun(Initial(text, maxAttempts), run)
            && PhaseOf(s, 2).Idle? && PhaseOf(s, 1) == Loaded(Fresh(text, maxAttempts), 0) && s.now == 11
            && ClaimGuard(s.tables.row, 0) && Due(s.tables.row.nextAttemptAt, s.now)
  {
    RunTwo(Initial(text, maxAttempts), Load(1), Tick(11));
  }

  lemma HoldingIsReached(text: string, maxAttempts: nat)
    ensures var run := [Load(1), Claim(1, 0, 10)];
            var s := Run(Initial(text, maxAttempts), run);
            && DisciplinedRun(Initial(text, maxAttempts), run) && Exclusive(s)
            && PhaseOf(s, 1) == Holding(Fresh(text, maxAttempts), 1, 10) && PhaseOf(s, 2).Idle?
            && s.tables.row.attemptCount == 1 && s.tables.row.nextAttemptAt.None?
            && s.tables.attempts == map[] && s.tables.externals == []
  {
    RunTwo(Initial(text, maxAttempts), Load(1), Claim(1, 0, 10));
    RunKeepsExclusive(Initial(text, maxAttempts), [Load(1), Claim(1, 0, 10)]);
  }

  lemma SendingIsReached(text: string, maxAttempts: nat)
    ensures var run := [Load(1), Claim(1, 0, 10)];
            var s := Run(Run(Initial(text, maxAttempts), run), [StartAttempt(1), ProviderAccepts(1)]);
            && DisciplinedRun(Initial(text, maxAttempts), run)
            && DisciplinedRun(Run(Initial(text, maxAttempts), run), [StartAttempt(1), ProviderAccepts(1)])
            && Exclusive(s) && PhaseOf(s, 1).Sending? && PhaseOf(s, 2).Idle? && s.tables.externals == []
            && s.tables.row.attemptCount == 1 && s.tables.row.maxAttempts == maxAttempts
            && s.tables.row.nextAttemptAt.None?
  {
    HoldingIsReached(text, maxAttempts);
    var s := Run(Initial(text, maxAttempts), [Load(1), Claim(1, 0, 10)]);
    RunTwo(s, StartAttempt(1), ProviderAccepts(1));
    RunKeepsExclusive(s, [StartAttempt(1), ProviderAccepts(1)]);
  }

  /** The one kind of row on which the reconciler and the claim differ is reached: two jobs load a fresh
      message, the first is refused and puts it off, and the second's claim, which its stale read lets
      through, lands on the row and runs out of its lease before the retry time. */
  lemma DifferingRowIsReached(text: string, maxAttempts: nat, code: string)
    requires maxAttempts >= 2
    ensures var both := Run(Initial(text, maxAttempts), [Load(1), Load(2)]);
            var trying := Run(both, [Claim(1, 0, 10), StartAttempt(1)]);
            var taken := Run(trying, [Throw(1, true, 1000, code), Claim(2, 0, 10)]);
            var after := Step(Step(taken, Stop(2)), Tick(11));
            && DisciplinedRun(Initial(text, maxAttempts), [Load(1), Load(2)])
            && DisciplinedRun(both, [Claim(1, 0, 10), StartAttempt(1)])
            && DisciplinedRun(trying, [Throw(1, true, 1000, code), Claim(2, 0, 10)])
            && Disciplined(taken, Stop(2)) && Disciplined(Step(taken, Stop(2)), Tick(11))
            && Candidate(after.tables.row, after.now) && !Sendable(after.tables.row, after.now)
  {
    BothLoad(text, maxAttempts);
    var both := Run(Initial(text, maxAttempts), [Load(1), Load(2)]);
    OneTries(both, 1, 2, 10);
    PutOffUnderAStaleClaim(Run(both, [Claim(1, 0, 10), StartAttempt(1)]), 1, 2, 10, 1000, code);
  }

  lemma BothLoad(text: string, maxAttempts: nat)
    ensures var run := [Load(1), Load(2)];
            var both := Run(Initial(text, maxAttempts), run);
            && DisciplinedRun(Initial(text, maxAttempts), run)
            && both == Initial(text, maxAttempts).(workers := map[1 := Loaded(Fresh(text, maxAttempts), 0),
                                                                  2 := Loaded(Fresh(text, maxAttempts), 0)])
  {
    RunTwo(Initial(text, maxAttempts), Load(1), Load(2));
    assert Step(Initial(text, maxAttempts), Load(1)).workers == map[1 := Loaded(Fresh(text, maxAttempts), 0)];
  }

  lemma OneTries(s: State, v: nat, w: nat, leaseMs: Time)
    requires v != w && s.workers.Keys == {v, w} && PhaseOf(s, v) == PhaseOf(s, w) == Loaded(s.tables.row, s.now)
    requires Sendable(s.tables.row, s.now) && s.tables.attempts == map[]
    ensures var run := [Claim(v, s.now, leaseMs), StartAttempt(v)];
            var trying := Run(s, run);
            && DisciplinedRun(s, run) && trying.now == s.now
            && PhaseOf(trying, v).Trying? && PhaseOf(trying, v).attempt == s.tables.row.attemptCount + 1
            && PhaseOf(trying, v).snapshot == s.tables.row && PhaseOf(trying, w) == PhaseOf(s, w)
            && forall u :: u in trying.workers && Holds(trying.workers[u]) ==> u == v
  {
    RunTwo(s, Claim(v, s.now, leaseMs), StartAttempt(v));
    assert forall u :: u in s.workers ==> u in s.workers.Keys;
  }

  lemma PutOffUnderAStaleClaim(s: State, v: nat, w: nat, leaseMs: Time, delay: Time, code: string)
    requires v != w && PhaseOf(s, v).Trying? && CanRetry(true, PhaseOf(s, v).attempt, PhaseOf(s, v).snapshot.maxAttempts)
    requires PhaseOf(s, w).Loaded? && PhaseOf(s, w).loadedAt <= s.now && Due(PhaseOf(s, w).snapshot.nextAttemptAt, s.now)
    requires leaseMs + 1 < delay && forall u :: u in s.workers && Holds(s.workers[u]) ==> u == v
    ensures var taken := Run(s, [Throw(v, true, delay, code), Claim(w, s.now, leaseMs)]);
            var after := Step(Step(taken, Stop(w)), Tick(s.now + leaseMs + 1));
            && DisciplinedRun(s, [Throw(v, true, delay, code), Claim(w, s.now, leaseMs)])
            && Disciplined(taken, Stop(w)) && Disciplined(Step(taken, Stop(w)), Tick(s.now + leaseMs + 1))
            && Candidate(after.tables.row, after.now) && !Sendable(after.tables.row, after.now)
  {
    RunTwo(s, Throw(v, true, delay, code), Claim(w, s.now, leaseMs));
  }
}
