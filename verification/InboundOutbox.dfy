/** The transactional outbox from agent runs to the support queue: several reconcilers lease dispatch
    rows, add one job a run under a job id derived from it, and complete or put back the row. */
module InboundOutbox {
  import opened Prelude

  datatype Status = Pending | Processing | Completed | Failed

  /** `lockExpiresAt` is what a claim writes and a completion or retry clears. */
  datatype Dispatch = Dispatch(
    run: nat, status: Status, availableAt: Time, lockExpiresAt: Option<Time>, attemptCount: nat)

  /** A job in the support queue; its id is `support-<run>`, so a run and its job id name each other. */
  datatype Job = SupportJob(run: nat)

  /** `queue.add`: nothing happens if a job with the id is there. */
  function AddJob(queue: seq<Job>, job: Job): seq<Job> {
    if job in queue then queue else queue + [job]
  }

  /** The queue drops a finished job, and with it what it knows of the job's id. */
  function DropJob(queue: seq<Job>, job: Job): (r: seq<Job>)
    ensures forall j :: j in r <==> j in queue && j != job
  {
    if queue == [] then []
    else
      var init, last := queue[..|queue| - 1], queue[|queue| - 1];
      assert queue == init + [last];
      if last == job then DropJob(init, job) else DropJob(init, job) + [last]
  }

  lemma {:induction false} DropKeepsDistinct(queue: seq<Job>, job: Job)
    requires Distinct(queue)
    ensures Distinct(DropJob(queue, job))
  {
    if queue != [] {
      var init := queue[..|queue| - 1];
      DropKeepsDistinct(init, job);
      assert queue[|queue| - 1] !in init;
    }
  }

  /** The `where` clause of the candidate query and of the claim. */
  predicate Claimable(d: Dispatch, now: Time) {
    || (d.status in {Pending, Failed} && d.availableAt <= now)
    || (d.status == Processing && d.lockExpiresAt.Some? && d.lockExpiresAt.value < now)
  }

  function Claimed(d: Dispatch, now: Time, leaseMs: Time): Dispatch {
    d.(status := Processing, lockExpiresAt := Some(now + leaseMs), attemptCount := d.attemptCount + 1)
  }

  function Finished(d: Dispatch): Dispatch {
    d.(status := Completed, lockExpiresAt := None)
  }

  function PutBack(d: Dispatch, availableAt: Time): Dispatch {
    d.(status := Pending, availableAt := availableAt, lockExpiresAt := None)
  }

  // Interleaved reconcilers.

  /** Where one call of `dispatchPendingInbound` stands: it read the clock once, at `now`. */
  datatype Phase =
    | Idle
    | Choosing(now: Time, left: seq<nat>)
    | Adding(now: Time, left: seq<nat>, id: nat)
    | Completing(now: Time, left: seq<nat>, id: nat)
    | Retrying(now: Time, left: seq<nat>, id: nat)

  datatype AddResult = Added | Refused | TimedOut

  /** How the update that completes a row ends; it may commit and still be reported as an error. */
  datatype WriteResult = Committed | NotCommitted | Unreported

  datatype State = State(
    now: Time,
    dispatches: seq<Dispatch>,
    queue: seq<Job>,
    added: set<Job>,                // the jobs ever added
    inFlight: set<Job>,             // adds that timed out and may still reach the queue
    reconcilers: map<nat, Phase>)

  datatype Action =
    | Tick(to: Time)
    | Create                                          // the ingest transaction adds a run and its row
    | Scan(r: nat, ids: seq<nat>)
    | Claim(r: nat, leaseMs: Time)
    | Add(r: nat, result: AddResult)
    | Land(job: Job)
    | Complete(r: nat, written: WriteResult)
    | Forget(job: Job)
    | Retry(r: nat, delayMs: Time)
    | Crash(r: nat)

  const INITIAL := State(0, [], [], {}, {}, map[])

  function PhaseOf(s: State, r: nat): Phase {
    if r in s.reconcilers then s.reconcilers[r] else Idle
  }

  function Move(s: State, r: nat, phase: Phase): State {
    s.(reconcilers := s.reconcilers[r := phase])
  }

  function Next(now: Time, left: seq<nat>): Phase {
    if left == [] then Idle else Choosing(now, left)
  }

  /** One atomic step; a step that is not enabled changes nothing. */
  function Step(s: State, a: Action): State {
    match a
    case Tick(to) => if s.now < to then s.(now := to) else s
    case Create => s.(dispatches := s.dispatches + [Dispatch(|s.dispatches|, Pending, s.now, None, 0)])
    case Scan(r, ids) =>
      if PhaseOf(s, r) == Idle && (forall id :: id in ids ==> id < |s.dispatches| && Claimable(s.dispatches[id], s.now))
      then Move(s, r, Next(s.now, ids)) else s
    case Claim(r, leaseMs) =>
      (match PhaseOf(s, r)
       case Choosing(now, left) =>
         if left != [] && left[0] < |s.dispatches| && Claimable(s.dispatches[left[0]], now)
         then Move(s, r, Adding(now, left[1..], left[0])).(
                dispatches := s.dispatches[left[0] := Claimed(s.dispatches[left[0]], now, leaseMs)])
         else Move(s, r, if left == [] then Idle else Next(now, left[1..]))
       case _ => s)
    case Add(r, result) =>
      (match PhaseOf(s, r)
       case Adding(now, left, id) =>
         if id >= |s.dispatches| then s
         else
           var job := SupportJob(s.dispatches[id].run);
           (match result
            case Added => Move(s, r, Completing(now, left, id)).(queue := AddJob(s.queue, job), added := s.added + {job})
            case Refused => Move(s, r, Retrying(now, left, id))
            case TimedOut => Move(s, r, Retrying(now, left, id)).(inFlight := s.inFlight + {job}))
       case _ => s)
    case Land(job) =>
      if job in s.inFlight
      then s.(queue := AddJob(s.queue, job), added := s.added + {job}, inFlight := s.inFlight - {job}) else s
    case Forget(job) => s.(queue := DropJob(s.queue, job))
    case Complete(r, written) =>
      (match PhaseOf(s, r)
       case Completing(now, left, id) =>
         if written == NotCommitted || id >= |s.dispatches| then Move(s, r, Retrying(now, left, id))
         else Move(s, r, if written == Unreported then Retrying(now, left, id) else Next(now, left)).(
                dispatches := s.dispatches[id := Finished(s.dispatches[id])])
       case _ => s)
    case Retry(r, delayMs) =>
      (match PhaseOf(s, r)
       case Retrying(now, left, id) =>
         if id >= |s.dispatches| then s
         else Move(s, r, Next(now, left)).(dispatches := s.dispatches[id := PutBack(s.dispatches[id], s.now + delayMs)])
       case _ => s)
    case Crash(r) => Move(s, r, Idle)
  }

  function Run(s: State, actions: seq<Action>): State
    decreases |actions|
  {
    if actions == [] then s else Run(Step(s, actions[0]), actions[1..])
  }

  /** A row's run is its own; the job of a completed row, and of one about to be, has been added; a row being
      processed has a lock; no job is queued twice, and jobs are for rows. */
  ghost predicate Sound(s: State) {
    && (forall i :: 0 <= i < |s.dispatches| ==> s.dispatches[i].run == i)
    && (forall i :: 0 <= i < |s.dispatches| && s.dispatches[i].status == Completed ==> SupportJob(i) in s.added)
    && (forall i :: 0 <= i < |s.dispatches| && s.dispatches[i].status == Processing ==> s.dispatches[i].lockExpiresAt.Some?)
    && (forall r :: r in s.reconcilers && s.reconcilers[r].Completing? ==> SupportJob(s.reconcilers[r].id) in s.added)
    && Distinct(s.queue)
    && (forall job :: job in s.queue ==> job in s.added)
    && (forall job :: job in s.added || job in s.inFlight ==> job.run < |s.dispatches|)
  }

  lemma AddKeepsDistinct(queue: seq<Job>, job: Job)
    requires Distinct(queue)
    ensures Distinct(AddJob(queue, job)) && job in AddJob(queue, job)
    ensures forall j :: j in AddJob(queue, job) <==> j in queue || j == job
  {
    if job !in queue {
      assert AddJob(queue, job)[|queue|] == job;
    }
  }

  /** A move that rewrites at most one row keeps soundness, if the row keeps its run, is leased when it
      is processed and queued when it is completed, and the job moves to a sound phase. */
  lemma RowWriteKeepsSound(s: State, s': State, r: nat, phase: Phase, id: nat, row: Dispatch)
    requires Sound(s) && id < |s.dispatches| && row.run == s.dispatches[id].run
    requires row.status == Processing ==> row.lockExpiresAt.Some?
    requires row.status == Completed ==> SupportJob(id) in s.added
    requires phase.Completing? ==> SupportJob(phase.id) in s.added
    requires s' == s.(reconcilers := s.reconcilers[r := phase], dispatches := s.dispatches[id := row])
    ensures Sound(s')
  {
  }

  lemma QueueStepKeepsSound(s: State, a: Action)
    requires Sound(s) && (a.Land? || a.Forget?)
    ensures Sound(Step(s, a))
  {
    if a.Land? {
      AddKeepsDistinct(s.queue, a.job);
    } else {
      DropKeepsDistinct(s.queue, a.job);
    }
  }

  lemma AddKeepsSound(s: State, r: nat, result: AddResult)
    requires Sound(s)
    ensures Sound(Step(s, Add(r, result)))
  {
    if PhaseOf(s, r).Adding? && PhaseOf(s, r).id < |s.dispatches| {
      AddKeepsDistinct(s.queue, SupportJob(s.dispatches[PhaseOf(s, r).id].run));
    }
  }

  lemma OtherStepKeepsSound(s: State, a: Action)
    requires Sound(s) && (a.Tick? || a.Create? || a.Scan? || a.Crash?)
    ensures Sound(Step(s, a))
  {
  }

  lemma StepKeepsSound(s: State, a: Action)
    requires Sound(s)
    ensures Sound(Step(s, a))
  {
    if a.Claim? || a.Complete? || a.Retry? {
      ReconcilerKeepsSound(s, a, PhaseOf(s, a.r));
    } else if a.Add? {
      AddKeepsSound(s, a.r, a.result);
    } else if a.Land? || a.Forget? {
      QueueStepKeepsSound(s, a);
    } else {
      OtherStepKeepsSound(s, a);
    }
  }

  lemma ReconcilerKeepsSound(s: State, a: Action, p: Phase)
    requires Sound(s) && (a.Claim? || a.Complete? || a.Retry?) && p == PhaseOf(s, a.r)
    ensures Sound(Step(s, a))
  {
    var s' := Step(s, a);
    if s'.dispatches != s.dispatches {
      var id := if p.Choosing? then p.left[0] else p.id;
      RowWriteKeepsSound(s, s', a.r, s'.reconcilers[a.r], id, s'.dispatches[id]);
    }
  }

  lemma {:induction false} RunKeepsSound(s: State, actions: seq<Action>)
    requires Sound(s)
    ensures Sound(Run(s, actions))
    decreases |actions|
  {
    if actions != [] {
      StepKeepsSound(s, actions[0]);
      RunKeepsSound(Step(s, actions[0]), actions[1..]);
    }
  }

  /** In every run of reconcilers, crashes and late adds: a completed row's job has been added, any other
      row becomes claimable once the clock passes its availability or its lock, and the queue never holds
      two jobs for one run. */
  lemma OutboxIsSound(actions: seq<Action>)
    ensures var s := Run(INITIAL, actions);
            && (forall i :: 0 <= i < |s.dispatches| && s.dispatches[i].status == Completed ==>
                  SupportJob(s.dispatches[i].run) in s.added)
            && (forall i, later: Time :: 0 <= i < |s.dispatches| ==>
                  var d := s.dispatches[i];
                  (Claimable(d, later) <==>
                     d.status != Completed
                     && if d.status == Processing then d.lockExpiresAt.Some? && later > d.lockExpiresAt.value
                        else later >= d.availableAt))
            && (forall i :: 0 <= i < |s.dispatches| && s.dispatches[i].status == Processing ==> s.dispatches[i].lockExpiresAt.Some?)
            && (forall j, k :: 0 <= j < k < |s.queue| ==> s.queue[j].run != s.queue[k].run)
            && (forall i, j :: 0 <= i < j < |s.dispatches| ==> s.dispatches[i].run != s.dispatches[j].run)
  {
    RunKeepsSound(INITIAL, actions);
    var s := Run(INITIAL, actions);
    forall j, k | 0 <= j < k < |s.queue| ensures s.queue[j].run != s.queue[k].run {
      assert s.queue[j] != s.queue[k];
    }
  }

  lemma AddJobContains(queue: seq<Job>, job: Job)
    ensures forall j :: j in AddJob(queue, job) <==> j in queue || j == job
  {
    if job !in queue {
      assert AddJob(queue, job)[|queue|] == job;
    }
  }

  /** A queued job stays until the queue itself drops it, and an added job stays on record, queued at first. */
  lemma JobsStay(s: State, a: Action, job: Job)
    ensures job in s.queue ==> (job in Step(s, a).queue <==> a != Forget(job))
    ensures s.added <= Step(s, a).added
    ensures job in Step(s, a).added && job !in s.added ==> job in Step(s, a).queue
  {
    if a.Land? {
      AddJobContains(s.queue, a.job);
    } else if a.Add? && PhaseOf(s, a.r).Adding? && PhaseOf(s, a.r).id < |s.dispatches| {
      AddJobContains(s.queue, SupportJob(s.dispatches[PhaseOf(s, a.r).id].run));
    }
  }

  /** A completed row is reopened by exactly one kind of step: the retry write of a reconciler that is still
      at work on the row. */
  lemma ReopenedExactly(s: State, a: Action, i: nat)
    requires i < |s.dispatches| && s.dispatches[i].status == Completed
    ensures Step(s, a).dispatches[i].status != Completed <==>
            a.Retry? && PhaseOf(s, a.r).Retrying? && PhaseOf(s, a.r).id == i
  {
  }

  // When completed rows stay completed.

  /** Between the claim of a row and the write that ends its work on it. */
  predicate Holds(p: Phase) {
    p.Adding? || p.Completing? || p.Retrying?
  }

  /** No reconciler outlives its lock, from a late claim or afterwards, and completing writes that commit are
      reported. */
  predicate Disciplined(s: State, a: Action) {
    match a
    case Tick(to) =>
      forall r :: r in s.reconcilers && Holds(s.reconcilers[r]) && s.reconcilers[r].id < |s.dispatches| ==>
        WithinLock(s.dispatches[s.reconcilers[r].id], to)
    case Claim(r, leaseMs) => PhaseOf(s, r).Choosing? ==> s.now <= PhaseOf(s, r).now + leaseMs
    case Complete(_, written) => written != Unreported
    case _ => true
  }

  predicate WithinLock(d: Dispatch, now: Time) {
    d.status == Processing && d.lockExpiresAt.Some? && now <= d.lockExpiresAt.value
  }

  predicate DisciplinedRun(s: State, actions: seq<Action>)
    decreases |actions|
  {
    actions == [] || (Disciplined(s, actions[0]) && DisciplinedRun(Step(s, actions[0]), actions[1..]))
  }

  predicate BothHold(p: Phase, q: Phase) {
    Holds(p) && Holds(q) && p.id == q.id
  }

  ghost predicate AtMostOneHolder(s: State) {
    forall q, r :: q in s.reconcilers && r in s.reconcilers && BothHold(s.reconcilers[q], s.reconcilers[r]) ==> q == r
  }

  /** A holder's row is locked, for it, and no call runs ahead of the clock. */
  ghost predicate Locked(s: State) {
    && (forall r :: r in s.reconcilers && Holds(s.reconcilers[r]) ==>
          s.reconcilers[r].id < |s.dispatches| && WithinLock(s.dispatches[s.reconcilers[r].id], s.now))
    && (forall r :: r in s.reconcilers && !s.reconcilers[r].Idle? ==> s.reconcilers[r].now <= s.now)
  }

  lemma ClaimKeepsExclusive(s: State, r: nat, leaseMs: Time)
    requires AtMostOneHolder(s) && Locked(s) && Disciplined(s, Claim(r, leaseMs))
    ensures AtMostOneHolder(Step(s, Claim(r, leaseMs))) && Locked(Step(s, Claim(r, leaseMs)))
  {
  }

  /** A move that goes on holding the same row, or holds nothing and writes at most the row held before. */
  lemma MoveKeepsExclusive(s: State, s': State, r: nat, p: Phase)
    requires AtMostOneHolder(s) && Locked(s) && s'.reconcilers == s.reconcilers[r := p] && s'.now == s.now
    requires !p.Idle? ==> p.now <= s.now
    requires Holds(p) ==> BothHold(p, PhaseOf(s, r)) && s'.dispatches == s.dispatches
    requires |s'.dispatches| == |s.dispatches|
    requires forall i :: 0 <= i < |s.dispatches| && s'.dispatches[i] != s.dispatches[i] ==>
               Holds(PhaseOf(s, r)) && PhaseOf(s, r).id == i
    ensures AtMostOneHolder(s') && Locked(s')
  {
  }

  lemma HolderStepKeepsExclusive(s: State, a: Action)
    requires AtMostOneHolder(s) && Locked(s) && Disciplined(s, a) && (a.Add? || a.Complete? || a.Retry? || a.Crash?)
    ensures AtMostOneHolder(Step(s, a)) && Locked(Step(s, a))
  {
    var s' := Step(s, a);
    if s' != s {
      MoveKeepsExclusive(s, s', a.r, s'.reconcilers[a.r]);
    }
  }

  lemma ScanKeepsExclusive(s: State, r: nat, ids: seq<nat>)
    requires AtMostOneHolder(s) && Locked(s)
    ensures AtMostOneHolder(Step(s, Scan(r, ids))) && Locked(Step(s, Scan(r, ids)))
  {
    if Step(s, Scan(r, ids)) != s {
      MoveKeepsExclusive(s, Step(s, Scan(r, ids)), r, Next(s.now, ids));
    }
  }

  lemma TickKeepsExclusive(s: State, to: Time)
    requires AtMostOneHolder(s) && Locked(s) && Disciplined(s, Tick(to))
    ensures AtMostOneHolder(Step(s, Tick(to))) && Locked(Step(s, Tick(to)))
  {
  }

  lemma QueueStepKeepsExclusive(s: State, a: Action)
    requires AtMostOneHolder(s) && Locked(s) && (a.Create? || a.Land? || a.Forget?)
    ensures AtMostOneHolder(Step(s, a)) && Locked(Step(s, a))
  {
  }

  lemma StepKeepsExclusive(s: State, a: Action)
    requires AtMostOneHolder(s) && Locked(s) && Disciplined(s, a)
    ensures AtMostOneHolder(Step(s, a)) && Locked(Step(s, a))
  {
    if a.Claim? {
      ClaimKeepsExclusive(s, a.r, a.leaseMs);
    } else if a.Scan? {
      ScanKeepsExclusive(s, a.r, a.ids);
    } else if a.Tick? {
      TickKeepsExclusive(s, a.to);
    } else if a.Create? || a.Land? || a.Forget? {
      QueueStepKeepsExclusive(s, a);
    } else {
      HolderStepKeepsExclusive(s, a);
    }
  }

  lemma {:induction false} RunKeepsExclusive(s: State, actions: seq<Action>)
    requires AtMostOneHolder(s) && Locked(s) && DisciplinedRun(s, actions)
    ensures AtMostOneHolder(Run(s, actions)) && Locked(Run(s, actions))
    decreases |actions|
  {
    if actions != [] {
      StepKeepsExclusive(s, actions[0]);
      RunKeepsExclusive(Step(s, actions[0]), actions[1..]);
    }
  }

  lemma {:induction false} CompletedStays(s: State, actions: seq<Action>, i: nat)
    requires AtMostOneHolder(s) && Locked(s) && DisciplinedRun(s, actions)
    requires i < |s.dispatches| && s.dispatches[i].status == Completed
    ensures i < |Run(s, actions).dispatches| && Run(s, actions).dispatches[i] == s.dispatches[i]
    decreases |actions|
  {
    if actions != [] {
      StepKeepsExclusive(s, actions[0]);
      CompletedRowIsLeft(s, actions[0], i);
      CompletedStays(Step(s, actions[0]), actions[1..], i);
    }
  }

  lemma CompletedRowIsLeft(s: State, a: Action, i: nat)
    requires Locked(s) && i < |s.dispatches| && s.dispatches[i].status == Completed
    ensures i < |Step(s, a).dispatches| && Step(s, a).dispatches[i] == s.dispatches[i]
  {
  }

  lemma {:induction false} RunSplit(s: State, xs: seq<Action>, ys: seq<Action>)
    ensures Run(s, xs + ys) == Run(Run(s, xs), ys)
    ensures DisciplinedRun(s, xs + ys) <==> DisciplinedRun(s, xs) && DisciplinedRun(Run(s, xs), ys)
    decreases |xs|
  {
    if xs == [] {
      assert xs + ys == ys;
    } else {
      assert (xs + ys)[1..] == xs[1..] + ys;
      RunSplit(Step(s, xs[0]), xs[1..], ys);
    }
  }

  /** In every run where no reconciler outlives its lock and no completing write commits unreported: at most
      one reconciler is at work on a row, and a completed row is never touched again. */
  lemma CompletedIsForever(earlier: seq<Action>, later: seq<Action>, i: nat)
    requires DisciplinedRun(INITIAL, earlier + later)
    ensures AtMostOneHolder(Run(INITIAL, earlier + later))
    ensures var s := Run(INITIAL, earlier);
            i < |s.dispatches| && s.dispatches[i].status == Completed ==>
              var after := Run(INITIAL, earlier + later);
              i < |after.dispatches| && after.dispatches[i] == s.dispatches[i]
  {
    RunSplit(INITIAL, earlier, later);
    RunKeepsExclusive(INITIAL, earlier);
    RunKeepsExclusive(INITIAL, earlier + later);
    var s := Run(INITIAL, earlier);
    if i < |s.dispatches| && s.dispatches[i].status == Completed {
      CompletedStays(s, later, i);
    }
  }

  // And when they do not: each condition is needed.

  lemma RunTwo(s: State, a: Action, b: Action)
    ensures Run(s, [a, b]) == Step(Step(s, a), b)
  {
    var run := [a, b];
    RunOne(Step(s, a), run[1..]);
  }

  lemma RunOne(s: State, run: seq<Action>)
    requires |run| == 1
    ensures Run(s, run) == Step(s, run[0])
  {
    assert run[1..] == [];
  }

  /** Reconciler `q` is still at work on a row whose lock has run out. */
  predicate LostLock(s: State, q: nat, id: nat) {
    && Holds(PhaseOf(s, q)) && PhaseOf(s, q).id == id < |s.dispatches|
    && s.dispatches[id].status == Processing
    && s.dispatches[id].lockExpiresAt.Some? && s.dispatches[id].lockExpiresAt.value < s.now
  }

  /** A claim that reaches the database after its lock has run out loses it at once. */
  lemma LateClaimLosesLock(s: State, q: nat, leaseMs: Time)
    requires PhaseOf(s, q).Choosing? && PhaseOf(s, q).left != [] && PhaseOf(s, q).now + leaseMs < s.now
    requires PhaseOf(s, q).left[0] < |s.dispatches| && Claimable(s.dispatches[PhaseOf(s, q).left[0]], PhaseOf(s, q).now)
    ensures LostLock(Step(s, Claim(q, leaseMs)), q, PhaseOf(s, q).left[0])
  {
  }

  lemma TakeOver(s: State, q: nat, r: nat, id: nat, leaseMs: Time)
    requires q != r && LostLock(s, q, id) && PhaseOf(s, r) == Idle
    ensures var taken := Run(s, [Scan(r, [id]), Claim(r, leaseMs)]);
            && id < |taken.dispatches| && PhaseOf(taken, q) == PhaseOf(s, q)
            && PhaseOf(taken, r).Adding? && PhaseOf(taken, r).id == id
  {
    RunTwo(s, Scan(r, [id]), Claim(r, leaseMs));
    var scanned := Step(s, Scan(r, [id]));
    assert PhaseOf(scanned, r) == Choosing(s.now, [id]);
  }

  lemma FinishesRow(s: State, q: nat, r: nat, id: nat)
    requires q != r && id < |s.dispatches| && PhaseOf(s, r).Adding? && PhaseOf(s, r).id == id
    ensures var completed := Run(s, [Add(r, Added), Complete(r, Committed)]);
            && id < |completed.dispatches| && completed.dispatches[id].status == Completed && PhaseOf(completed, q) == PhaseOf(s, q)
  {
    RunTwo(s, Add(r, Added), Complete(r, Committed));
  }

  /** How `q` ends its work when it fails from where it stands. */
  function Failing(p: Phase, q: nat, delayMs: Time): seq<Action>
    requires Holds(p)
  {
    (if p.Adding? then [Add(q, Refused)] else if p.Completing? then [Complete(q, NotCommitted)] else [])
    + [Retry(q, delayMs)]
  }

  lemma PutsBack(s: State, q: nat, id: nat, delayMs: Time)
    requires id < |s.dispatches| && Holds(PhaseOf(s, q)) && PhaseOf(s, q).id == id
    ensures var reopened := Run(s, Failing(PhaseOf(s, q), q, delayMs));
            id < |reopened.dispatches| && reopened.dispatches[id].status == Pending
  {
    var steps := Failing(PhaseOf(s, q), q, delayMs);
    if |steps| == 1 {
      RunOne(s, steps);
    } else {
      assert steps == [steps[0], steps[1]];
      RunTwo(s, steps[0], steps[1]);
    }
  }

  /** A lost lock: another reconciler takes the row, so that two are at work on it, and completes it; then
      `q`, wherever it stood, fails and opens it again. */
  lemma LostLockReopens(s: State, q: nat, r: nat, id: nat, leaseMs: Time, delayMs: Time)
    requires q != r && LostLock(s, q, id) && PhaseOf(s, r) == Idle
    ensures var taken := Run(s, [Scan(r, [id]), Claim(r, leaseMs)]);
            var completed := Run(taken, [Add(r, Added), Complete(r, Committed)]);
            var reopened := Run(completed, Failing(PhaseOf(s, q), q, delayMs));
            && !AtMostOneHolder(taken)
            && id < |completed.dispatches| && completed.dispatches[id].status == Completed
            && id < |reopened.dispatches| && reopened.dispatches[id].status == Pending
  {
    TakeOver(s, q, r, id, leaseMs);
    var taken := Run(s, [Scan(r, [id]), Claim(r, leaseMs)]);
    assert q in taken.reconcilers && r in taken.reconcilers;
    FinishesRow(taken, q, r, id);
    PutsBack(Run(taken, [Add(r, Added), Complete(r, Committed)]), q, id, delayMs);
  }

  /** A lost report: the completing write commits and is reported as an error, and the same reconciler opens
      the row again, with no other one involved. */
  lemma LostReportReopens(s: State, q: nat, delayMs: Time)
    requires PhaseOf(s, q).Completing? && PhaseOf(s, q).id < |s.dispatches|
    ensures var id := PhaseOf(s, q).id;
            var completed := Step(s, Complete(q, Unreported));
            var reopened := Run(s, [Complete(q, Unreported), Retry(q, delayMs)]);
            && id < |completed.dispatches| && completed.dispatches[id].status == Completed
            && id < |reopened.dispatches| && reopened.dispatches[id].status == Pending
  {
    RunTwo(s, Complete(q, Unreported), Retry(q, delayMs));
  }

  /** Both situations are reached: a claim, and then the clock past its lock, or an add. */
  lemma ReopeningIsReached(q: nat, leaseMs: Time)
    ensures var claimed := Run(Run(INITIAL, [Create, Scan(q, [0])]), [Claim(q, leaseMs), Tick(leaseMs + 1)]);
            LostLock(claimed, q, 0) && forall r :: r != q ==> PhaseOf(claimed, r) == Idle
    ensures var added := Run(Run(INITIAL, [Create, Scan(q, [0])]), [Claim(q, leaseMs), Add(q, Added)]);
            PhaseOf(added, q).Completing? && PhaseOf(added, q).id == 0 < |added.dispatches|
  {
    RunTwo(INITIAL, Create, Scan(q, [0]));
    var s := Run(INITIAL, [Create, Scan(q, [0])]);
    assert s.dispatches == [Dispatch(0, Pending, 0, None, 0)];
    assert PhaseOf(s, q) == Choosing(0, [0]);
    RunTwo(s, Claim(q, leaseMs), Tick(leaseMs + 1));
    RunTwo(s, Claim(q, leaseMs), Add(q, Added));
  }

  // One call, in place.

  /** What one call does to the candidates `ids`, when the adds for `refused` rows fail. */
  function DispatchAll(ds: seq<Dispatch>, queue: seq<Job>, ids: seq<nat>, refused: set<nat>, now: Time, leaseMs: Time, delayMs: Time)
    : (seq<Dispatch>, seq<Job>)
  {
    if ids == [] then (ds, queue)
    else
      var (before, queued) := DispatchAll(ds, queue, ids[..|ids| - 1], refused, now, leaseMs, delayMs);
      var id := ids[|ids| - 1];
      if id >= |before| || !Claimable(before[id], now) then (before, queued)
      else
        var claimed := Claimed(before[id], now, leaseMs);
        if id in refused then (before[id := PutBack(claimed, now + delayMs)], queued)
        else (before[id := Finished(claimed)], AddJob(queued, SupportJob(claimed.run)))
  }

  class Outbox {
    var dispatches: seq<Dispatch>
    var queue: seq<Job>

    constructor ()
      ensures dispatches == [] && queue == []
    {
      dispatches, queue := [], [];
    }

    /** `candidates` is the answer of the candidate query, in its order. */
    method DispatchPendingInbound(candidates: seq<nat>, refused: set<nat>, now: Time, leaseMs: Time, delayMs: Time)
      modifies this
      ensures (dispatches, queue) == DispatchAll(old(dispatches), old(queue), candidates, refused, now, leaseMs, delayMs)
    {
      var i := 0;
      while i < |candidates|
        invariant 0 <= i <= |candidates|
        invariant |dispatches| == |old(dispatches)|
        invariant (dispatches, queue) == DispatchAll(old(dispatches), old(queue), candidates[..i], refused, now, leaseMs, delayMs)
      {
        var id := candidates[i];
        ghost var upTo := candidates[..i + 1];
        assert upTo[..|upTo| - 1] == candidates[..i] && upTo[|upTo| - 1] == id;
        if id < |dispatches| && Claimable(dispatches[id], now) {
          ghost var before := dispatches;
          dispatches := dispatches[id := Claimed(dispatches[id], now, leaseMs)];
          if id in refused {
            dispatches := dispatches[id := PutBack(dispatches[id], now + delayMs)];
          } else {
            queue := AddJob(queue, SupportJob(dispatches[id].run));
            dispatches := dispatches[id := Finished(dispatches[id])];
          }
          assert dispatches == before[id := dispatches[id]];
        }
        i := i + 1;
      }
      assert candidates[..i] == candidates;
    }
  }

  /** One undisturbed call completes each candidate that was claimable and whose add succeeds, with its
      job queued, puts back each one whose add fails, and leaves every other row alone. */
  lemma {:induction false} DispatchAllExactly(ds: seq<Dispatch>, queue: seq<Job>, ids: seq<nat>, refused: set<nat>,
                                              now: Time, leaseMs: Time, delayMs: Time, i: nat)
    requires i < |ds| && delayMs > 0
    ensures var (after, queued) := DispatchAll(ds, queue, ids, refused, now, leaseMs, delayMs);
            && |after| == |ds|
            && (i in ids && Claimable(ds[i], now) && i !in refused ==>
                  after[i] == Dispatch(ds[i].run, Completed, ds[i].availableAt, None, ds[i].attemptCount + 1)
                  && SupportJob(ds[i].run) in queued)
            && (i in ids && Claimable(ds[i], now) && i in refused ==>
                  after[i] == Dispatch(ds[i].run, Pending, now + delayMs, None, ds[i].attemptCount + 1))
            && (!(i in ids && Claimable(ds[i], now)) ==> after[i] == ds[i])
            && (forall job :: job in queue ==> job in queued)
  {
    if ids != [] {
      var earlier := ids[..|ids| - 1];
      assert ids == earlier + [ids[|ids| - 1]];
      DispatchAllExactly(ds, queue, earlier, refused, now, leaseMs, delayMs, i);
    }
  }

  // The interleaved steps and the call agree.

  /** A call selects claimable rows only, and claims a row only if it still was, by the clock it read at first. */
  lemma SelectionsAreClaimable(s: State, r: nat, ids: seq<nat>, leaseMs: Time)
    ensures Step(s, Scan(r, ids)) != s ==>
              forall id :: id in ids ==> id < |s.dispatches| && Claimable(s.dispatches[id], s.now)
    ensures Step(s, Claim(r, leaseMs)).dispatches != s.dispatches ==>
              && PhaseOf(s, r).Choosing? && PhaseOf(s, r).left != []
              && var id := PhaseOf(s, r).left[0];
              id < |s.dispatches| && Claimable(s.dispatches[id], PhaseOf(s, r).now)
  {
  }

  /** An add that timed out may still reach the queue, once. */
  lemma TimedOutAddsMayLand(s: State, r: nat)
    requires PhaseOf(s, r).Adding? && PhaseOf(s, r).id < |s.dispatches|
    ensures var job := SupportJob(s.dispatches[PhaseOf(s, r).id].run);
            var late := Step(s, Add(r, TimedOut));
            && late.queue == s.queue && PhaseOf(late, r).Retrying?
            && job in Step(late, Land(job)).queue && job in Step(late, Land(job)).added && job !in Step(late, Land(job)).inFlight
  {
    AddJobContains(s.queue, SupportJob(s.dispatches[PhaseOf(s, r).id].run));
  }

  /** The steps of one row; those that its outcome does not call for are not enabled and change nothing. */
  function RowSteps(s: State, r: nat, refused: bool, leaseMs: Time, delayMs: Time): State {
    var added := Step(Step(s, Claim(r, leaseMs)), Add(r, if refused then Refused else Added));
    Step(Step(added, Complete(r, Committed)), Retry(r, delayMs))
  }

  lemma RowStepsAgree(s: State, r: nat, ids: seq<nat>, refused: set<nat>, leaseMs: Time, delayMs: Time)
    requires ids != [] && PhaseOf(s, r) == Choosing(s.now, ids)
    ensures var after := RowSteps(s, r, ids[0] in refused, leaseMs, delayMs);
            && (after.dispatches, after.queue) == DispatchAll(s.dispatches, s.queue, [ids[0]], refused, s.now, leaseMs, delayMs)
            && PhaseOf(after, r) == Next(s.now, ids[1..]) && after.now == s.now
  {
    var id := ids[0];
    assert [id][..0] == [];
    assert DispatchAll(s.dispatches, s.queue, [], refused, s.now, leaseMs, delayMs) == (s.dispatches, s.queue);
    var claimed := Step(s, Claim(r, leaseMs));
    if id < |s.dispatches| && Claimable(s.dispatches[id], s.now) {
      assert PhaseOf(claimed, r) == Adding(s.now, ids[1..], id);
      assert claimed.dispatches == s.dispatches[id := Claimed(s.dispatches[id], s.now, leaseMs)];
      var after := RowSteps(s, r, id in refused, leaseMs, delayMs);
      assert after.dispatches == s.dispatches[id := after.dispatches[id]];
    } else {
      assert PhaseOf(claimed, r) == Next(s.now, ids[1..]);
    }
  }

  /** The steps of a whole call. */
  function CallSteps(s: State, r: nat, ids: seq<nat>, refused: set<nat>, leaseMs: Time, delayMs: Time): State
    decreases |ids|
  {
    if ids == [] then s
    else CallSteps(RowSteps(s, r, ids[0] in refused, leaseMs, delayMs), r, ids[1..], refused, leaseMs, delayMs)
  }

  lemma {:induction false} DispatchAllSplits(ds: seq<Dispatch>, queue: seq<Job>, first: nat, ids: seq<nat>, refused: set<nat>,
                                             now: Time, leaseMs: Time, delayMs: Time)
    ensures var (before, queued) := DispatchAll(ds, queue, [first], refused, now, leaseMs, delayMs);
            DispatchAll(ds, queue, [first] + ids, refused, now, leaseMs, delayMs) ==
              DispatchAll(before, queued, ids, refused, now, leaseMs, delayMs)
  {
    if ids == [] {
      assert [first] + ids == [first];
    } else {
      var all := [first] + ids;
      assert all[..|all| - 1] == [first] + ids[..|ids| - 1] && all[|all| - 1] == ids[|ids| - 1];
      DispatchAllSplits(ds, queue, first, ids[..|ids| - 1], refused, now, leaseMs, delayMs);
    }
  }

  lemma {:induction false} CallStepsAgree(s: State, r: nat, ids: seq<nat>, refused: set<nat>, leaseMs: Time, delayMs: Time)
    requires PhaseOf(s, r) == Next(s.now, ids)
    ensures var after := CallSteps(s, r, ids, refused, leaseMs, delayMs);
            && (after.dispatches, after.queue) == DispatchAll(s.dispatches, s.queue, ids, refused, s.now, leaseMs, delayMs)
            && PhaseOf(after, r) == Idle
    decreases |ids|
  {
    if ids != [] {
      RowStepsAgree(s, r, ids, refused, leaseMs, delayMs);
      CallStepsAgree(RowSteps(s, r, ids[0] in refused, leaseMs, delayMs), r, ids[1..], refused, leaseMs, delayMs);
      assert ids == [ids[0]] + ids[1..];
      DispatchAllSplits(s.dispatches, s.queue, ids[0], ids[1..], refused, s.now, leaseMs, delayMs);
    }
  }

  /** The interleaving refines to the call: the steps of one reconciler that nothing disturbs, from its selection
      on, do to rows and queue what `dispatchPendingInbound` does, and end its work. */
  lemma UndisturbedCallAgrees(s: State, r: nat, ids: seq<nat>, refused: set<nat>, leaseMs: Time, delayMs: Time)
    requires PhaseOf(s, r) == Idle && forall id :: id in ids ==> id < |s.dispatches| && Claimable(s.dispatches[id], s.now)
    ensures var after := CallSteps(Step(s, Scan(r, ids)), r, ids, refused, leaseMs, delayMs);
            && (after.dispatches, after.queue) == DispatchAll(s.dispatches, s.queue, ids, refused, s.now, leaseMs, delayMs)
            && PhaseOf(after, r) == Idle
  {
    CallStepsAgree(Step(s, Scan(r, ids)), r, ids, refused, leaseMs, delayMs);
  }
}
