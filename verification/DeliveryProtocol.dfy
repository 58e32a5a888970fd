/** Several delivery jobs, operators and provider callbacks interleaving over one outbound message.
    Loading a row and writing it are separate steps, so every write may rest on a stale read, and a
    job may stop between any two steps. */
module DeliveryProtocol {
  import opened Prelude
  import opened OutboundMessages

  /** Where one execution of `sendOutboundMessage` stands. */
  datatype Phase =
    | Idle
    | Loaded(snapshot: Row, loadedAt: Time)
    | Holding(snapshot: Row, attempt: nat, leaseUntil: Time)   // claimed; attempt row not written yet
    | Trying(snapshot: Row, attempt: nat, leaseUntil: Time)    // in the try block, before the provider accepts
    | Sending(snapshot: Row, attempt: nat, leaseUntil: Time)   // accepted by the provider, not committed
    | Announcing(snapshot: Row, attempt: nat)                  // committed; still appending timeline events

  datatype Decision = Replaying | Cancelling

  datatype State = State(
    now: Time,
    tables: Tables,
    workers: map<nat, Phase>,
    operators: map<nat, Decision>,
    accepted: seq<nat>)          // the attempts whose message the provider accepted, in order

  datatype Action =
    | Tick(to: Time)
    | Load(w: nat)
    | Claim(w: nat, at: Time, leaseMs: Time)
    | StartAttempt(w: nat)
    | ProviderAccepts(w: nat)
    | Commit(w: nat, providerMessageId: string, delivered: bool)
    | Throw(w: nat, retryable: bool, delay: Time, code: string)
    | Stop(w: nat)               // return, crash, or an exception outside the try block
    | Check(o: nat, decision: Decision)
    | Write(o: nat)
    | Callback(providerMessageId: string, cb: CallbackStatus, occurredAt: Time)

  function PhaseOf(s: State, w: nat): Phase {
    if w in s.workers then s.workers[w] else Idle
  }

  function Move(s: State, w: nat, phase: Phase): State {
    s.(workers := s.workers[w := phase])
  }

  /** One atomic step; a step that is not enabled changes nothing. */
  function Step(s: State, a: Action): State {
    match a
    case Tick(to) => s.(now := Max(s.now, to))
    case Load(w) =>
      if PhaseOf(s, w) == Idle && !Terminal(s.tables.row.status)      // the clock is read afterwards, by the claim
      then Move(s, w, Loaded(s.tables.row, s.now)) else s
    case Claim(w, at, leaseMs) => ClaimStep(s, w, at, leaseMs)
    case StartAttempt(w) =>
      (match PhaseOf(s, w)
       case Holding(snapshot, attempt, until) =>
         (match OpenAttempt(s.tables, attempt)
          case Some(tables) => Move(s, w, Trying(snapshot, attempt, until)).(tables := tables)
          case None => Move(s, w, Idle))
       case _ => s)
    case ProviderAccepts(w) =>
      (match PhaseOf(s, w)
       case Trying(snapshot, attempt, until) =>
         Move(s, w, Sending(snapshot, attempt, until)).(accepted := s.accepted + [attempt])
       case _ => s)
    case Commit(w, id, delivered) =>
      (match PhaseOf(s, w)
       case Sending(snapshot, attempt, _) =>
         (match CommitAccepted(s.tables, attempt, snapshot.textBody, id, s.now, delivered)
          case Some(tables) => Move(s, w, Announcing(snapshot, attempt)).(tables := tables)
          case None => s)                                     // the violation is thrown: see Throw
       case _ => s)
    case Throw(w, retryable, delay, code) => ThrowStep(s, w, retryable, delay, code)
    case Stop(w) => Move(s, w, Idle)
    case Check(o, decision) =>
      var allowed := if decision == Replaying then ReplayAllowed(s.tables.row.status)
                     else CancelAllowed(s.tables.row.status);
      if allowed then s.(operators := s.operators[o := decision]) else s
    case Write(o) =>
      if o !in s.operators then s
      else
        var row := if s.operators[o] == Replaying then Replayed(s.tables.row, s.now)
                   else CancelledRow(s.tables.row, s.now);
        s.(tables := s.tables.(row := row), operators := s.operators - {o})
    case Callback(id, cb, occurredAt) =>
      if s.tables.row.providerMessageId == Some(id)
      then s.(tables := s.tables.(row := CalledBack(s.tables.row, cb, occurredAt))) else s
  }

  /** The guarded update runs against the row as it is now, but writes an attempt number computed
      from the snapshot and a lease computed from the clock reading `at` taken after the load. */
  function ClaimStep(s: State, w: nat, at: Time, leaseMs: Time): State {
    match PhaseOf(s, w)
    case Loaded(snapshot, loadedAt) =>
      if !(loadedAt <= at <= s.now) || !Due(snapshot.nextAttemptAt, at) then s
      else if !ClaimGuard(s.tables.row, at) then Move(s, w, Idle)
      else
        var attempt := snapshot.attemptCount + 1;
        Move(s, w, Holding(snapshot, attempt, at + leaseMs)).(
          tables := s.tables.(row := Claimed(s.tables.row, w, at, leaseMs, attempt)))
    case _ => s
  }

  /** The catch block. Only errors thrown by the provider can be marked retryable. */
  function ThrowStep(s: State, w: nat, retryable: bool, delay: Time, code: string): State {
    match PhaseOf(s, w)
    case Trying(snapshot, attempt, _) =>
      Catch(s, w, attempt, CanRetry(retryable, attempt, snapshot.maxAttempts), delay, code)
    case Sending(_, attempt, _) => Catch(s, w, attempt, false, delay, code)
    case Announcing(_, attempt) => Catch(s, w, attempt, false, delay, code)
    case _ => s
  }

  function Catch(s: State, w: nat, attempt: nat, canRetry: bool, delay: Time, code: string): State {
    Move(s, w, Idle).(tables := CommitRejected(s.tables, attempt, canRetry, s.now, delay, code))
  }

  function Initial(textBody: string, maxAttempts: nat): State {
    State(0, Tables(Fresh(textBody, maxAttempts), map[], [], []), map[], map[], [])
  }

  function Run(s: State, actions: seq<Action>): State
    decreases |actions|
  {
    if actions == [] then s else Run(Step(s, actions[0]), actions[1..])
  }

  // The conditions under which leases exclude each other.

  /** Between the claim and the write that ends the attempt. */
  predicate Holds(p: Phase) {
    p.Holding? || p.Trying? || p.Sending?
  }

  /** A claimant finishes or stops before its lease ends, and no write that ignores leases (an
      operator's, a callback's, or a failure after the commit) lands on a row being processed. */
  predicate Disciplined(s: State, a: Action) {
    match a
    case Tick(to) => forall w :: w in s.workers && Holds(s.workers[w]) ==> to <= s.workers[w].leaseUntil
    case Claim(w, at, leaseMs) => s.now <= at + leaseMs
    case Throw(w, _, _, _) => PhaseOf(s, w).Announcing? ==> s.tables.row.status != Processing
    case Write(_) => s.tables.row.status != Processing
    case Callback(_, _, _) => s.tables.row.status != Processing
    case _ => true
  }

  predicate DisciplinedRun(s: State, actions: seq<Action>)
    decreases |actions|
  {
    actions == [] || (Disciplined(s, actions[0]) && DisciplinedRun(Step(s, actions[0]), actions[1..]))
  }

  ghost predicate AtMostOneHolder(s: State) {
    forall v, w :: v in s.workers && w in s.workers && Holds(s.workers[v]) && Holds(s.workers[w]) ==> v == w
  }

  /** The holder's lease is the one on the row, and has not ended. */
  ghost predicate HolderOwnsLease(s: State) {
    forall w :: w in s.workers && Holds(s.workers[w]) ==>
      && s.tables.row.status == Processing
      && s.tables.row.leaseOwner == Some(w)
      && s.tables.row.leaseExpiresAt == Some(s.workers[w].leaseUntil)
      && s.now <= s.workers[w].leaseUntil
  }

  ghost predicate Exclusive(s: State) {
    AtMostOneHolder(s) && HolderOwnsLease(s)
  }

  /** Moving one job keeps exclusion when it goes on holding the same lease on the same row, or when it
      holds nothing afterwards and has written the row only as its holder or on an idle row. */
  lemma MoveKeepsExclusive(s: State, s': State, w: nat, p: Phase)
    requires Exclusive(s) && s'.workers == s.workers[w := p] && s'.now == s.now
    requires Holds(p) ==> Holds(PhaseOf(s, w)) && p.leaseUntil == PhaseOf(s, w).leaseUntil
                          && s'.tables.row == s.tables.row
    requires s'.tables.row == s.tables.row || Holds(PhaseOf(s, w)) || s.tables.row.status != Processing
    ensures Exclusive(s')
  {
    forall v | v in s'.workers && Holds(s'.workers[v])
      ensures v in s.workers && Holds(s.workers[v]) && s'.workers[v].leaseUntil == s.workers[v].leaseUntil
      ensures s'.tables.row == s.tables.row
    {
    }
  }

  lemma JobStepKeepsExclusive(s: State, a: Action)
    requires Exclusive(s) && (a.Load? || a.StartAttempt? || a.ProviderAccepts? || a.Commit? || a.Stop?)
    ensures Exclusive(Step(s, a))
  {
    var s' := Step(s, a);
    if s' != s {
      MoveKeepsExclusive(s, s', a.w, s'.workers[a.w]);
    }
  }

  lemma ClaimKeepsExclusive(s: State, w: nat, at: Time, leaseMs: Time)
    requires Exclusive(s) && s.now <= at + leaseMs
    ensures Exclusive(ClaimStep(s, w, at, leaseMs))
  {
    var s' := ClaimStep(s, w, at, leaseMs);
    if s' != s {
      if s'.workers[w].Idle? {
        MoveKeepsExclusive(s, s', w, Idle);
      } else {
        assert forall v :: v in s.workers ==> !Holds(s.workers[v]);
      }
    }
  }

  lemma ThrowKeepsExclusive(s: State, w: nat, retryable: bool, delay: Time, code: string)
    requires Exclusive(s) && (PhaseOf(s, w).Announcing? ==> s.tables.row.status != Processing)
    ensures Exclusive(ThrowStep(s, w, retryable, delay, code))
  {
    var s' := ThrowStep(s, w, retryable, delay, code);
    if s' != s {
      MoveKeepsExclusive(s, s', w, Idle);
    }
  }

  lemma StepKeepsExclusive(s: State, a: Action)
    requires Exclusive(s) && Disciplined(s, a)
    ensures Exclusive(Step(s, a))
  {
    match a
    case Claim(w, at, leaseMs) => ClaimKeepsExclusive(s, w, at, leaseMs);
    case Throw(w, retryable, delay, code) => ThrowKeepsExclusive(s, w, retryable, delay, code);
    case Tick(_) =>
    case Check(_, _) =>
    case Write(_) =>
    case Callback(_, _, _) =>
    case _ => JobStepKeepsExclusive(s, a);
  }

  lemma {:induction false} RunKeepsExclusive(s: State, actions: seq<Action>)
    requires Exclusive(s) && DisciplinedRun(s, actions)
    ensures Exclusive(Run(s, actions))
    decreases |actions|
  {
    if actions != [] {
      StepKeepsExclusive(s, actions[0]);
      RunKeepsExclusive(Step(s, actions[0]), actions[1..]);
    }
  }

  /** Mutual exclusion over every disciplined run. */
  lemma DeliveryMutualExclusion(text: string, maxAttempts: nat, actions: seq<Action>)
    requires DisciplinedRun(Initial(text, maxAttempts), actions)
    ensures AtMostOneHolder(Run(Initial(text, maxAttempts), actions))
  {
    RunKeepsExclusive(Initial(text, maxAttempts), actions);
  }

  predicate WorkerAction(a: Action) {
    a.Load? || a.Claim? || a.StartAttempt? || a.ProviderAccepts? || a.Commit? || a.Throw? || a.Stop?
  }

  /** A worker step moves a finished row in exactly one case: a failure after the commit, which puts
      DEAD_LETTER over SENT, DELIVERED or CANCELLED. Every other worker step leaves it untouched. */
  lemma WorkersLeaveFinishedRowsAlone(text: string, maxAttempts: nat, actions: seq<Action>, a: Action)
    requires DisciplinedRun(Initial(text, maxAttempts), actions + [a]) && WorkerAction(a)
    requires Terminal(Run(Initial(text, maxAttempts), actions).tables.row.status)
    ensures var s := Run(Initial(text, maxAttempts), actions);
            var late := a.Throw? && PhaseOf(s, a.w).Announcing?;
            && (Step(s, a).tables.row.status != s.tables.row.status <==> late && s.tables.row.status != DeadLetter)
            && (!late ==> Step(s, a).tables.row == s.tables.row)
            && (late ==> Step(s, a).tables.row.status == DeadLetter)
  {
    DisciplinedPrefix(Initial(text, maxAttempts), actions, [a]);
    RunKeepsExclusive(Initial(text, maxAttempts), actions);
  }

  lemma {:induction false} DisciplinedPrefix(s: State, xs: seq<Action>, ys: seq<Action>)
    requires DisciplinedRun(s, xs + ys)
    ensures DisciplinedRun(s, xs)
    ensures DisciplinedRun(Run(s, xs), ys)
    decreases |xs|
  {
    if xs == [] {
      assert xs + ys == ys;
    } else {
      assert (xs + ys)[1..] == xs[1..] + ys;
      DisciplinedPrefix(Step(s, xs[0]), xs[1..], ys);
    }
  }

  // What holds in every run, disciplined or not.

  /** Nothing rewrites the text; a job in its try block owns its attempt row; the provider accepts an
      attempt at most once; one external message at most is stored, with the approved text. */
  ghost predicate Sound(s: State, text: string) {
    && Leased(s.tables.row)
    && s.tables.row.textBody == text
    && |s.tables.externals| <= 1 && (forall t :: t in s.tables.externals ==> t == text)
    && (forall w :: w in s.workers ==> SnapshotText(s.workers[w], text))
    && (forall w :: w in s.workers && Tries(s.workers[w]) ==> s.workers[w].attempt in s.tables.attempts)
    && (forall v, w :: v in s.workers && w in s.workers && v != w && Tries(s.workers[v]) && Tries(s.workers[w])
          ==> s.workers[v].attempt != s.workers[w].attempt)
    && Distinct(s.accepted)
    && (forall n :: n in s.accepted ==> n in s.tables.attempts)
    && (forall w :: w in s.workers && s.workers[w].Trying? ==> s.workers[w].attempt !in s.accepted)
  }

  predicate Tries(p: Phase) {
    p.Trying? || p.Sending? || p.Announcing?
  }

  predicate SnapshotText(p: Phase, text: string) {
    p.Idle? || p.snapshot.textBody == text
  }

  /** Moving one job keeps soundness when it tries nothing new and the writes keep text and keys. */
  lemma QuietMoveKeepsSound(s: State, s': State, w: nat, p: Phase, text: string)
    requires Sound(s, text) && s'.workers == s.workers[w := p]
    requires SnapshotText(p, text) && !Tries(p)
    requires s'.accepted == s.accepted && s'.tables.externals == s.tables.externals
    requires s'.tables.attempts.Keys == s.tables.attempts.Keys
    requires Leased(s'.tables.row) && s'.tables.row.textBody == text
    ensures Sound(s', text)
  {
    forall v | v in s'.workers && Tries(s'.workers[v])
      ensures v != w && v in s.workers && s'.workers[v] == s.workers[v] && s'.workers[v].attempt in s'.tables.attempts
    {
      assert s.workers[v].attempt in s.tables.attempts.Keys;
    }
  }

  lemma StartKeepsSound(s: State, w: nat, text: string)
    requires Sound(s, text)
    ensures Sound(Step(s, StartAttempt(w)), text)
  {
    var s' := Step(s, StartAttempt(w));
    if s' != s {
      if s'.workers[w].Idle? {
        QuietMoveKeepsSound(s, s', w, Idle, text);
      } else {
        var n := s'.workers[w].attempt;
        forall v | v in s'.workers && v != w && Tries(s'.workers[v]) ensures s'.workers[v].attempt != n {
          assert s.workers[v].attempt in s.tables.attempts;
        }
      }
    }
  }

  lemma AcceptKeepsSound(s: State, w: nat, text: string)
    requires Sound(s, text)
    ensures Sound(Step(s, ProviderAccepts(w)), text)
  {
    var s' := Step(s, ProviderAccepts(w));
    if s' != s {
      assert w in s.workers && s.workers[w].Trying?;
      var n := s.workers[w].attempt;
      assert n !in s.accepted && n in s.tables.attempts;
      assert s'.tables == s.tables;
    }
  }

  lemma CommitKeepsSound(s: State, w: nat, id: string, delivered: bool, text: string)
    requires Sound(s, text)
    ensures Sound(Step(s, Commit(w, id, delivered)), text)
  {
    var s' := Step(s, Commit(w, id, delivered));
    if s' != s {
      assert w in s.workers && s.workers[w].Sending?;
      var n := s.workers[w].attempt;
      assert s'.tables.attempts.Keys == s.tables.attempts.Keys + {n};
      assert s'.tables.externals == [text];
    }
  }

  lemma ThrowKeepsSound(s: State, w: nat, retryable: bool, delay: Time, code: string, text: string)
    requires Sound(s, text)
    ensures Sound(ThrowStep(s, w, retryable, delay, code), text)
  {
    var s' := ThrowStep(s, w, retryable, delay, code);
    if s' != s {
      assert w in s.workers && Tries(s.workers[w]);
      assert s'.tables.attempts.Keys == s.tables.attempts.Keys;
      QuietMoveKeepsSound(s, s', w, Idle, text);
    }
  }

  lemma ClaimKeepsSound(s: State, w: nat, at: Time, leaseMs: Time, text: string)
    requires Sound(s, text)
    ensures Sound(ClaimStep(s, w, at, leaseMs), text)
  {
    var s' := ClaimStep(s, w, at, leaseMs);
    if s' != s {
      assert s.workers[w].Loaded?;
      QuietMoveKeepsSound(s, s', w, s'.workers[w], text);
    }
  }

  lemma StepKeepsSound(s: State, a: Action, text: string)
    requires Sound(s, text)
    ensures Sound(Step(s, a), text)
  {
    match a
    case StartAttempt(w) => StartKeepsSound(s, w, text);
    case ProviderAccepts(w) => AcceptKeepsSound(s, w, text);
    case Commit(w, id, delivered) => CommitKeepsSound(s, w, id, delivered, text);
    case Throw(w, retryable, delay, code) => ThrowKeepsSound(s, w, retryable, delay, code, text);
    case Claim(w, at, leaseMs) => ClaimKeepsSound(s, w, at, leaseMs, text);
    case Load(w) =>
      if Step(s, a) != s {
        QuietMoveKeepsSound(s, Step(s, a), w, Loaded(s.tables.row, s.now), text);
      }
    case Stop(w) => QuietMoveKeepsSound(s, Step(s, a), w, Idle, text);
    case _ =>
  }

  lemma {:induction false} RunKeepsSound(s: State, actions: seq<Action>, text: string)
    requires Sound(s, text)
    ensures Sound(Run(s, actions), text)
    decreases |actions|
  {
    if actions != [] {
      StepKeepsSound(s, actions[0], text);
      RunKeepsSound(Step(s, actions[0]), actions[1..], text);
    }
  }

  /** In every run: an attempt number reaches the provider at most once, at most one external message
      is stored and it carries the approved text, and an unfinished message is never stranded. */
  lemma EveryRunIsSound(text: string, maxAttempts: nat, actions: seq<Action>)
    ensures var s := Run(Initial(text, maxAttempts), actions);
            && Distinct(s.accepted)
            && |s.tables.externals| <= 1
            && (forall t :: t in s.tables.externals ==> t == s.tables.row.textBody == text)
            && forall now: Time :: !Terminal(s.tables.row.status) && Due(s.tables.row.nextAttemptAt, now)
                 && (s.tables.row.leaseExpiresAt.Some? ==> s.tables.row.leaseExpiresAt.value < now)
                 ==> Candidate(s.tables.row, now) && Sendable(s.tables.row, now)
  {
    RunKeepsSound(Initial(text, maxAttempts), actions, text);
  }

  // One acceptance.

  /** A run in which nothing undoes a send: no job stops between acceptance and commit, or fails from then
      on, and neither an operator nor a failure callback writes over a sent row. */
  predicate Undisturbed(s: State, a: Action) {
    && Disciplined(s, a)
    && match a
       case Stop(w) => !PhaseOf(s, w).Sending?
       case Throw(w, _, _, _) => !PhaseOf(s, w).Sending? && !PhaseOf(s, w).Announcing?
       case Write(_) => s.tables.row.status !in {Sent, Delivered}
       case Callback(id, cb, _) =>
         !(s.tables.row.providerMessageId == Some(id) && Requested(cb) == Failed && !CallbackIgnored(s.tables.row, cb))
       case _ => true
  }

  predicate UndisturbedRun(s: State, actions: seq<Action>)
    decreases |actions|
  {
    actions == [] || (Undisturbed(s, actions[0]) && UndisturbedRun(Step(s, actions[0]), actions[1..]))
  }

  ghost predicate SentOnce(s: State) {
    && Exclusive(s)
    && |s.accepted| <= 1
    && (s.accepted == [] ==> s.tables.externals == [] && forall w :: w in s.workers ==> !s.workers[w].Sending?)
    && (s.accepted != [] ==> s.tables.row.status in {Sent, Delivered}
                             || exists w :: w in s.workers && s.workers[w].Sending?)
  }

  lemma StepKeepsSentOnce(s: State, a: Action)
    requires SentOnce(s) && Undisturbed(s, a)
    ensures SentOnce(Step(s, a))
  {
    StepKeepsExclusive(s, a);
    var s' := Step(s, a);
    if w :| w in s.workers && s.workers[w].Sending? {
      if !(w in s'.workers && s'.workers[w].Sending?) {
        assert a.Commit? && a.w == w;
      }
    }
  }

  lemma {:induction false} RunKeepsSentOnce(s: State, actions: seq<Action>)
    requires SentOnce(s) && UndisturbedRun(s, actions)
    ensures SentOnce(Run(s, actions))
    decreases |actions|
  {
    if actions != [] {
      StepKeepsSentOnce(s, actions[0]);
      RunKeepsSentOnce(Step(s, actions[0]), actions[1..]);
    }
  }

  /** Whatever the interleaving of jobs, an undisturbed message reaches the provider at most once. */
  lemma AcceptedAtMostOnce(text: string, maxAttempts: nat, actions: seq<Action>)
    requires UndisturbedRun(Initial(text, maxAttempts), actions)
    ensures |Run(Initial(text, maxAttempts), actions).accepted| <= 1
  {
    RunKeepsSentOnce(Initial(text, maxAttempts), actions);
  }
}
