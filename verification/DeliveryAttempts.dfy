/** The attempt limit under interleaving: which steps keep a message within `maxAttempts` however its jobs
    interleave, and which break the limit. */
module DeliveryAttempts {
  import opened Prelude
  import opened OutboundMessages
  import opened DeliveryProtocol
  import opened DeliveryLimits

  predicate AtLimit(row: Row) {
    row.attemptCount == row.maxAttempts
  }

  /** At the limit, no job stops while it holds the message, no replay is written, and no failure is called
      back. Below the limit all of these are free. */
  predicate Budgeted(s: State, a: Action) {
    AtLimit(s.tables.row) ==>
      match a
      case Stop(w) => !Holds(PhaseOf(s, w))
      case Write(o) => !(o in s.operators && s.operators[o] == Replaying)
      case Callback(id, cb, _) =>
        !(s.tables.row.providerMessageId == Some(id) && Requested(cb) == Failed && !CallbackIgnored(s.tables.row, cb))
      case _ => true
  }

  predicate BudgetedRun(s: State, actions: seq<Action>)
    decreases |actions|
  {
    actions == [] || (Budgeted(s, actions[0]) && BudgetedRun(Step(s, actions[0]), actions[1..]))
  }

  /** What a row at or below the limit `max` looks like; `held` tells whether a job holds it. */
  predicate RowWithin(row: Row, max: nat, held: bool) {
    && row.maxAttempts == max && row.attemptCount <= max
    && (row.status in {Pending, RetryScheduled, Failed} ==> row.attemptCount < max)
    && (row.status == Processing && row.attemptCount == max ==> held)
  }

  /** What a job may have read or claimed: only a held or finished row shows the limit as reached. */
  predicate PhaseWithin(p: Phase, row: Row, max: nat) {
    && (!p.Idle? ==> p.snapshot.maxAttempts == max)
    && (p.Loaded? ==> p.snapshot.attemptCount <= max && (p.snapshot.attemptCount == max ==> row.attemptCount == max))
    && (Holds(p) ==> 1 <= p.attempt == row.attemptCount)
  }

  ghost predicate Held(s: State) {
    exists w :: w in s.workers && Holds(s.workers[w])
  }

  ghost predicate Within(s: State, max: nat) {
    && RowWithin(s.tables.row, max, Held(s))
    && (forall w :: w in s.workers ==> PhaseWithin(s.workers[w], s.tables.row, max))
    && (forall w :: w in s.workers && s.workers[w].Holding? && s.workers[w].attempt == max ==> max !in s.tables.attempts)
    && (max in s.tables.attempts ==> s.tables.row.attemptCount == max)
    && (forall n :: n in s.tables.attempts ==> 1 <= n <= max)
  }

  /** A row that a claim may take is not held, so it is below the limit, and nobody has seen otherwise. */
  lemma ClaimableIsBelow(s: State, at: Time, max: nat)
    requires Within(s, max) && Exclusive(s) && at <= s.now && ClaimGuard(s.tables.row, at)
    ensures !Held(s) && s.tables.row.attemptCount < max && max !in s.tables.attempts
    ensures forall w :: w in s.workers && s.workers[w].Loaded? ==> s.workers[w].snapshot.attemptCount < max
  {
  }

  lemma ClaimKeepsWithin(s: State, w: nat, at: Time, leaseMs: Time, max: nat)
    requires Within(s, max) && Exclusive(s)
    ensures Within(ClaimStep(s, w, at, leaseMs), max)
  {
    var s' := ClaimStep(s, w, at, leaseMs);
    if s' != s {
      if s'.workers[w].Idle? {
        QuietMoveKeepsWithin(s, s', w, max);
      } else {
        ClaimableIsBelow(s, at, max);
        assert w in s'.workers && Holds(s'.workers[w]);
        assert forall v :: v in s.workers ==> !Holds(s.workers[v]);
      }
    }
  }

  /** A job that held nothing goes idle, or loads the row. */
  lemma QuietMoveKeepsWithin(s: State, s': State, w: nat, max: nat)
    requires Within(s, max) && !Holds(PhaseOf(s, w)) && w in s'.workers && !Holds(s'.workers[w])
    requires s'.workers == s.workers[w := s'.workers[w]] && s'.tables == s.tables
    requires PhaseWithin(s'.workers[w], s'.tables.row, max)
    ensures Within(s', max)
  {
    if v :| v in s.workers && Holds(s.workers[v]) {
      assert v in s'.workers && Holds(s'.workers[v]);
    }
  }

  lemma StartKeepsWithin(s: State, w: nat, max: nat)
    requires Within(s, max) && Exclusive(s)
    ensures Within(Step(s, StartAttempt(w)), max)
  {
    var s' := Step(s, StartAttempt(w));
    if s' != s {
      var n := s.workers[w].attempt;
      if s'.workers[w].Idle? {
        assert n < max;
      } else {
        assert w in s'.workers && Holds(s'.workers[w]);
        assert s'.tables.attempts.Keys == s.tables.attempts.Keys + {n};
        assert forall k :: k in s'.tables.attempts <==> k in s'.tables.attempts.Keys;
        assert forall v :: v in s.workers && Holds(s.workers[v]) ==> v == w;
      }
    }
  }

  lemma AcceptKeepsWithin(s: State, w: nat, max: nat)
    requires Within(s, max)
    ensures Within(Step(s, ProviderAccepts(w)), max)
  {
    var s' := Step(s, ProviderAccepts(w));
    if s' != s {
      assert w in s'.workers && Holds(s'.workers[w]);
    }
  }

  /** A finishing write: the row is finished, or put off below the limit; nobody else holds it. */
  lemma FinishKeepsWithin(s: State, s': State, w: nat, p: Phase, max: nat)
    requires Within(s, max) && Exclusive(s) && w in s.workers && s'.workers == s.workers[w := p] && !Holds(p) && !p.Loaded?
    requires !s.workers[w].Idle? && (!p.Idle? ==> p.snapshot == s.workers[w].snapshot)
    requires s'.tables.row.maxAttempts == max && s'.tables.row.attemptCount == s.tables.row.attemptCount
    requires Terminal(s'.tables.row.status) || (s'.tables.row.status == RetryScheduled && s.tables.row.attemptCount < max)
    requires s'.tables.attempts.Keys == s.tables.attempts.Keys
    ensures Within(s', max)
  {
    assert forall k :: k in s'.tables.attempts <==> k in s'.tables.attempts.Keys;
    assert forall k :: k in s.tables.attempts <==> k in s.tables.attempts.Keys;
  }

  lemma CommitKeepsWithin(s: State, w: nat, id: string, delivered: bool, max: nat, text: string)
    requires Within(s, max) && Exclusive(s) && Sound(s, text)
    ensures Within(Step(s, Commit(w, id, delivered)), max)
  {
    var s' := Step(s, Commit(w, id, delivered));
    if s' != s {
      assert s.workers[w].attempt in s.tables.attempts;
      assert s'.tables.attempts.Keys == s.tables.attempts.Keys;
      FinishKeepsWithin(s, s', w, s'.workers[w], max);
    }
  }

  lemma ThrowKeepsWithin(s: State, w: nat, retryable: bool, delay: Time, code: string, max: nat, text: string)
    requires Within(s, max) && Exclusive(s) && Sound(s, text)
    ensures Within(ThrowStep(s, w, retryable, delay, code), max)
  {
    var s' := ThrowStep(s, w, retryable, delay, code);
    if s' != s {
      assert s.workers[w].attempt in s.tables.attempts;
      assert s'.tables.attempts.Keys == s.tables.attempts.Keys;
      FinishKeepsWithin(s, s', w, Idle, max);
    }
  }

  /** A write from outside the jobs, on a row that no job is processing. */
  lemma OutsideWriteKeepsWithin(s: State, s': State, max: nat)
    requires Within(s, max) && Exclusive(s) && s'.workers == s.workers && s.tables.row.status != Processing
    requires s'.tables == s.tables.(row := s'.tables.row)
    requires s'.tables.row.maxAttempts == max && s'.tables.row.attemptCount == s.tables.row.attemptCount
    requires Terminal(s'.tables.row.status) || s.tables.row.attemptCount < max
    requires s'.tables.row.status != Processing
    ensures Within(s', max)
  {
  }

  lemma StepKeepsWithin(s: State, a: Action, max: nat, text: string)
    requires Within(s, max) && Exclusive(s) && Sound(s, text) && Disciplined(s, a) && Budgeted(s, a)
    ensures Within(Step(s, a), max)
  {
    match a {
      case Claim(w, at, leaseMs) => ClaimKeepsWithin(s, w, at, leaseMs, max);
      case StartAttempt(w) => StartKeepsWithin(s, w, max);
      case ProviderAccepts(w) => AcceptKeepsWithin(s, w, max);
      case Commit(w, id, delivered) => CommitKeepsWithin(s, w, id, delivered, max, text);
      case Throw(w, retryable, delay, code) => ThrowKeepsWithin(s, w, retryable, delay, code, max, text);
      case Load(w) =>
        if Step(s, a) != s {
          QuietMoveKeepsWithin(s, Step(s, a), w, max);
        }
      case Stop(w) => StopKeepsWithin(s, w, max);
      case Write(o) =>
        if o in s.operators {
          OutsideWriteKeepsWithin(s, Step(s, a), max);
        }
      case Callback(_, _, _) =>
        if Step(s, a).tables.row != s.tables.row {
          OutsideWriteKeepsWithin(s, Step(s, a), max);
        }
      case _ =>
    }
  }

  lemma StopKeepsWithin(s: State, w: nat, max: nat)
    requires Within(s, max) && (s.tables.row.attemptCount == max ==> !Holds(PhaseOf(s, w)))
    ensures Within(Step(s, Stop(w)), max)
  {
    if v :| v in s.workers && Holds(s.workers[v]) && v != w {
      assert v in Step(s, Stop(w)).workers && Holds(Step(s, Stop(w)).workers[v]);
    }
  }

  lemma {:induction false} RunKeepsWithin(s: State, actions: seq<Action>, max: nat, text: string)
    requires Within(s, max) && Exclusive(s) && Sound(s, text) && DisciplinedRun(s, actions) && BudgetedRun(s, actions)
    ensures Within(Run(s, actions), max)
    decreases |actions|
  {
    if actions != [] {
      StepKeepsWithin(s, actions[0], max, text);
      StepKeepsExclusive(s, actions[0]);
      StepKeepsSound(s, actions[0], text);
      RunKeepsWithin(Step(s, actions[0]), actions[1..], max, text);
    }
  }

  /** The attempt limit over every disciplined run, stale reads and crashes below the limit included: the
      count, the attempt any job holds and every recorded attempt stay within `max`. */
  lemma AttemptsStayWithinLimit(text: string, max: nat, actions: seq<Action>)
    requires max >= 1
    requires DisciplinedRun(Initial(text, max), actions) && BudgetedRun(Initial(text, max), actions)
    ensures var s := Run(Initial(text, max), actions);
            && s.tables.row.attemptCount <= max
            && (forall w :: w in s.workers && Holds(s.workers[w]) ==> 1 <= s.workers[w].attempt <= max)
            && (forall n :: n in s.tables.attempts ==> 1 <= n <= max)
            && (forall n :: n in s.accepted ==> 1 <= n <= max)
  {
    RunKeepsWithin(Initial(text, max), actions, max, text);
    RunKeepsSound(Initial(text, max), actions, text);
  }

  // Each excluded step breaks the limit.

  /** The attempt limit does not count crashes: a job that stops while it holds the last attempt leaves the
      row to be taken over once its lease has ended, for an attempt beyond the limit. */
  lemma CrashesExceedTheAttemptLimit(s: State, v: nat, w: nat, leaseMs: Time)
    requires Exclusive(s) && v != w && Holds(PhaseOf(s, v)) && PhaseOf(s, w).Idle?
    requires s.tables.row.attemptCount == s.tables.row.maxAttempts && Due(s.tables.row.nextAttemptAt, s.now)
    ensures var later := PhaseOf(s, v).leaseUntil + 1;
            var open := Run(s, [Stop(v), Tick(later)]);
            var taken := Run(open, [Load(w), Claim(w, later, leaseMs)]);
            && !Budgeted(s, Stop(v))
            && DisciplinedRun(s, [Stop(v), Tick(later)]) && DisciplinedRun(open, [Load(w), Claim(w, later, leaseMs)])
            && PhaseOf(taken, w).Holding? && PhaseOf(taken, w).attempt == s.tables.row.maxAttempts + 1
  {
    var later := PhaseOf(s, v).leaseUntil + 1;
    RunTwo(s, Stop(v), Tick(later));
    RunTwo(Run(s, [Stop(v), Tick(later)]), Load(w), Claim(w, later, leaseMs));
  }

  /** A job at the limit that outlives its lease breaks it too, without any stop: another job takes the row
      over for the attempt beyond. */
  lemma LeaseOverrunsExceedTheAttemptLimit(s: State, v: nat, w: nat, to: Time, leaseMs: Time)
    requires Exclusive(s) && v != w && Holds(PhaseOf(s, v)) && PhaseOf(s, w).Idle? && to > PhaseOf(s, v).leaseUntil
    requires AtLimit(s.tables.row) && Due(s.tables.row.nextAttemptAt, s.now)
    ensures var late := Step(s, Tick(to));
            var run := [Load(w), Claim(w, to, leaseMs)];
            && !Disciplined(s, Tick(to)) && Budgeted(s, Tick(to)) && DisciplinedRun(late, run)
            && PhaseOf(Run(late, run), w).Holding? && PhaseOf(Run(late, run), w).attempt == s.tables.row.maxAttempts + 1
  {
    NextAttempt(Step(s, Tick(to)), w, leaseMs);
  }

  /** And so does a claim of the last attempt that reaches the database after its lease has ended. */
  lemma LateClaimsExceedTheAttemptLimit(s: State, v: nat, w: nat, at: Time, leaseMs: Time, leaseMs': Time)
    requires v != w && PhaseOf(s, w).Idle? && Due(s.tables.row.nextAttemptAt, s.now)
    requires PhaseOf(s, v).Loaded? && PhaseOf(s, v).loadedAt <= at && Due(PhaseOf(s, v).snapshot.nextAttemptAt, at)
    requires ClaimGuard(s.tables.row, at) && at + leaseMs < s.now
    requires PhaseOf(s, v).snapshot.attemptCount + 1 == s.tables.row.maxAttempts
    ensures var late := Step(s, Claim(v, at, leaseMs));
            var run := [Load(w), Claim(w, late.now, leaseMs')];
            && !Disciplined(s, Claim(v, at, leaseMs)) && Budgeted(s, Claim(v, at, leaseMs)) && DisciplinedRun(late, run)
            && PhaseOf(Run(late, run), w).Holding? && PhaseOf(Run(late, run), w).attempt == s.tables.row.maxAttempts + 1
  {
    NextAttempt(Step(s, Claim(v, at, leaseMs)), w, leaseMs');
  }

  /** A replay of a message at the limit buys an attempt beyond it. */
  lemma ReplaysExceedTheAttemptLimit(s: State, o: nat, w: nat, leaseMs: Time)
    requires AtLimit(s.tables.row) && s.tables.row.status != Processing && PhaseOf(s, w).Idle?
    requires o in s.operators && s.operators[o] == Replaying
    ensures var replayed := Step(s, Write(o));
            var run := [Load(w), Claim(w, replayed.now, leaseMs)];
            && !Budgeted(s, Write(o)) && Disciplined(s, Write(o)) && DisciplinedRun(replayed, run)
            && PhaseOf(Run(replayed, run), w).Holding? && PhaseOf(Run(replayed, run), w).attempt == s.tables.row.maxAttempts + 1
  {
    NextAttempt(Step(s, Write(o)), w, leaseMs);
  }

  /** So does a failure called back for a message that used its last attempt. */
  lemma FailureCallbacksExceedTheAttemptLimit(s: State, id: string, cb: CallbackStatus, at: Time, w: nat, leaseMs: Time)
    requires AtLimit(s.tables.row) && s.tables.row.status != Processing && PhaseOf(s, w).Idle?
    requires s.tables.row.providerMessageId == Some(id) && Requested(cb) == Failed && !CallbackIgnored(s.tables.row, cb)
    requires Due(s.tables.row.nextAttemptAt, s.now)
    ensures var failed := Step(s, Callback(id, cb, at));
            var run := [Load(w), Claim(w, failed.now, leaseMs)];
            && !Budgeted(s, Callback(id, cb, at)) && Disciplined(s, Callback(id, cb, at)) && DisciplinedRun(failed, run)
            && PhaseOf(Run(failed, run), w).Holding? && PhaseOf(Run(failed, run), w).attempt == s.tables.row.maxAttempts + 1
  {
    NextAttempt(Step(s, Callback(id, cb, at)), w, leaseMs);
  }

  /** A job about to commit the last attempt leaves the row at the limit: sent, or dead-lettered and then
      up for a replay. */
  lemma LastAttemptIsSent(s: State, v: nat, id: string)
    requires PhaseOf(s, v).Sending? && s.tables.externals == [] && AtLimit(s.tables.row)
    ensures var row := Step(s, Commit(v, id, false)).tables.row;
            AtLimit(row) && row.status == Sent && row.providerMessageId == Some(id) && row.nextAttemptAt.None?
  {
  }

  lemma LastAttemptIsDeadLettered(s: State, v: nat, o: nat)
    requires PhaseOf(s, v).Sending? && AtLimit(s.tables.row)
    ensures var dead := Step(Step(s, Throw(v, false, 0, "")), Check(o, Replaying));
            && AtLimit(dead.tables.row) && dead.tables.row.status == DeadLetter
            && o in dead.operators && dead.operators[o] == Replaying
  {
  }

  /** And a message with one attempt gets there in disciplined runs (`HoldingIsReached` has it held). */
  lemma LastAttemptIsReached(text: string)
    ensures var held := Run(Initial(text, 1), [Load(1), Claim(1, 0, 10)]);
            var accepted := Run(held, [StartAttempt(1), ProviderAccepts(1)]);
            && DisciplinedRun(Initial(text, 1), [Load(1), Claim(1, 0, 10)])
            && DisciplinedRun(held, [StartAttempt(1), ProviderAccepts(1)])
            && PhaseOf(accepted, 1).Sending? && PhaseOf(accepted, 2).Idle?
            && accepted.tables.externals == [] && AtLimit(accepted.tables.row)
  {
    SendingIsReached(text, 1);
  }
}
