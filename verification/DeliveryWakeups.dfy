/** How delivery jobs get into their queue: the API after an approval or a replay, the worker after a failed
    attempt, and the reconciler. The queue ignores an add whose job id it still knows, and it keeps a
    number of finished jobs. Message ids are positions. */
module DeliveryWakeups {
  import opened Prelude

  /** `channel-delivery-<message>-<attemptCount>`, or with a time stamp when the worker itself re-enqueues. */
  datatype JobId = Numbered(message: nat, attemptCount: nat) | Stamped(message: nat, at: Time)

  datatype JobState = Waiting | Finished

  type Queue = map<JobId, JobState>

  /** `queue.add` */
  function Add(queue: Queue, id: JobId): Queue {
    if id in queue then queue else queue[id := Waiting]
  }

  predicate Woken(queue: Queue, message: nat) {
    exists id :: id in queue && id.message == message && queue[id] == Waiting
  }

  // One call of the reconciler.

  /** A selected row. */
  datatype Candidate = Candidate(message: nat, attemptCount: nat)

  function IdOf(c: Candidate): JobId {
    Numbered(c.message, c.attemptCount)
  }

  function AddAll(queue: Queue, candidates: seq<Candidate>, refused: set<nat>): Queue {
    if candidates == [] then queue
    else
      var earlier, last := AddAll(queue, candidates[..|candidates| - 1], refused), candidates[|candidates| - 1];
      if last.message in refused then earlier else Add(earlier, IdOf(last))
  }

  function Accepted(candidates: seq<Candidate>, refused: set<nat>): nat {
    if candidates == [] then 0
    else Accepted(candidates[..|candidates| - 1], refused) + if candidates[|candidates| - 1].message in refused then 0 else 1
  }

  class OutboundDeliveryReconciler {
    var running: bool
    var queue: Queue

    constructor ()
      ensures !running && queue == map[]
    {
      running, queue := false, map[];
    }

    /** `candidates` is the answer of the candidate query; the adds for `refused` messages throw. */
    method Reconcile(candidates: seq<Candidate>, refused: set<nat>) returns (enqueued: nat, skipped: bool)
      modifies this
      ensures running == old(running) == skipped
      ensures skipped ==> enqueued == 0 && queue == old(queue)
      ensures !skipped ==> enqueued == |set i | 0 <= i < |candidates| && candidates[i].message !in refused|
      ensures !skipped ==> enqueued == Accepted(candidates, refused) && queue == AddAll(old(queue), candidates, refused)
    {
      if running {
        return 0, true;
      }
      running := true;
      enqueued := 0;
      var i := 0;
      while i < |candidates|
        invariant 0 <= i <= |candidates| && running
        invariant enqueued == Accepted(candidates[..i], refused)
        invariant queue == AddAll(old(queue), candidates[..i], refused)
      {
        assert candidates[..i + 1][..i] == candidates[..i];
        if candidates[i].message !in refused {
          queue := Add(queue, IdOf(candidates[i]));
          enqueued := enqueued + 1;
        }
        i := i + 1;
      }
      assert candidates[..i] == candidates;
      AcceptedCounts(candidates, refused);
      running := false;
      skipped := false;
    }
  }

  /** The number reported is that of the selected rows whose add did not throw. */
  lemma {:induction false} AcceptedCounts(candidates: seq<Candidate>, refused: set<nat>)
    ensures Accepted(candidates, refused) == |set i | 0 <= i < |candidates| && candidates[i].message !in refused|
  {
    var taken := set i | 0 <= i < |candidates| && candidates[i].message !in refused;
    if candidates == [] {
      assert taken == {};
    } else {
      var last := |candidates| - 1;
      var earlier := set i | 0 <= i < last && candidates[..last][i].message !in refused;
      AcceptedCounts(candidates[..last], refused);
      assert taken == earlier + if candidates[last].message in refused then {} else {last};
    }
  }

  /** Reconciling adds the ids of the rows it could add and forgets none, so each such row has a job waiting
      afterwards unless the queue still keeps a finished job under the very id. */
  lemma {:induction false} AddAllExactly(queue: Queue, candidates: seq<Candidate>, refused: set<nat>, id: JobId)
    ensures var after := AddAll(queue, candidates, refused);
            && (id in queue ==> id in after && after[id] == queue[id])
            && (id !in queue ==>
                  (id in after <==> exists c :: c in candidates && c.message !in refused && IdOf(c) == id)
                  && (id in after ==> after[id] == Waiting))
  {
    if candidates != [] {
      var earlier, last := candidates[..|candidates| - 1], candidates[|candidates| - 1];
      AddAllExactly(queue, earlier, refused, id);
      assert candidates == earlier + [last];
    }
  }

  // Runs.

  /** The attempt counts of the messages, the queue, and what each caller has read and not added yet: the
      count is read in one call and the job is added in a later one. */
  datatype State = State(counts: seq<nat>, queue: Queue, seen: map<nat, Candidate>)

  datatype Action =
    | Create                                    // an approval creates a message
    | Read(caller: nat, message: nat)           // the API or the reconciler reads the row
    | AddRead(caller: nat)                      // and adds the job under what it read
    | WakeLater(message: nat, at: Time)         // the worker
    | Claim(message: nat, attempt: nat)         // a job claims its message and writes the count
    | Finish(id: JobId)                         // a job ends, having claimed or not
    | Forget(id: JobId)                         // the queue drops an old finished job

  const START := State([], map[], map[])

  function Step(s: State, a: Action): State {
    match a
    case Create => s.(counts := s.counts + [0])
    case Read(caller, m) =>
      if m < |s.counts| then s.(seen := s.seen[caller := Candidate(m, s.counts[m])]) else s
    case AddRead(caller) =>
      if caller in s.seen
      then s.(queue := Add(s.queue, IdOf(s.seen[caller])), seen := s.seen - {caller}) else s
    case WakeLater(m, at) => if m < |s.counts| then s.(queue := Add(s.queue, Stamped(m, at))) else s
    case Claim(m, attempt) => if m < |s.counts| then s.(counts := s.counts[m := attempt]) else s
    case Finish(id) => if id in s.queue then s.(queue := s.queue[id := Finished]) else s
    case Forget(id) => if id in s.queue && s.queue[id] == Finished then s.(queue := s.queue - {id}) else s
  }

  function Run(s: State, actions: seq<Action>): State
    decreases |actions|
  {
    if actions == [] then s else Run(Step(s, actions[0]), actions[1..])
  }

  /** A numbered job ends only after its message was claimed beyond its number, and a claim raises the count. */
  predicate Advances(s: State, a: Action) {
    match a
    case Finish(id) => id.Numbered? && id.message < |s.counts| ==> id.attemptCount < s.counts[id.message]
    case Claim(m, attempt) => m < |s.counts| ==> s.counts[m] < attempt
    case _ => true
  }

  predicate AdvancingRun(s: State, actions: seq<Action>)
    decreases |actions|
  {
    actions == [] || (Advances(s, actions[0]) && AdvancingRun(Step(s, actions[0]), actions[1..]))
  }

  predicate NotAhead(c: Candidate, counts: seq<nat>) {
    c.message < |counts| && c.attemptCount <= counts[c.message]
  }

  /** Neither jobs nor reads run ahead of the counts, and a finished job's number is behind its message's. */
  ghost predicate Fresh(s: State) {
    && (forall id :: id in s.queue ==> id.message < |s.counts|)
    && (forall id :: id in s.queue && id.Numbered? ==> id.attemptCount <= s.counts[id.message])
    && (forall id :: id in s.queue && id.Numbered? && s.queue[id] == Finished ==> id.attemptCount < s.counts[id.message])
    && (forall caller :: caller in s.seen ==> NotAhead(s.seen[caller], s.counts))
  }

  lemma StepKeepsFresh(s: State, a: Action)
    requires Fresh(s) && Advances(s, a)
    ensures Fresh(Step(s, a))
  {
  }

  lemma {:induction false} RunKeepsFresh(s: State, actions: seq<Action>)
    requires Fresh(s) && AdvancingRun(s, actions)
    ensures Fresh(Run(s, actions))
    decreases |actions|
  {
    if actions != [] {
      StepKeepsFresh(s, actions[0]);
      RunKeepsFresh(Step(s, actions[0]), actions[1..]);
    }
  }

  /** An add leaves a job waiting for its message exactly when one was waiting already or the queue does not
      keep a finished job under the number that was read. */
  lemma WakeTakesEffectExactly(s: State, caller: nat)
    requires caller in s.seen
    ensures var c := s.seen[caller];
            Woken(Step(s, AddRead(caller)).queue, c.message) <==>
              Woken(s.queue, c.message) || !(IdOf(c) in s.queue && s.queue[IdOf(c)] == Finished)
  {
    var c := s.seen[caller];
    var after := Step(s, AddRead(caller)).queue;
    if IdOf(c) !in s.queue {
      assert after[IdOf(c)] == Waiting && IdOf(c).message == c.message;
    }
    if j :| j in s.queue && j.message == c.message && s.queue[j] == Waiting {
      assert j in after && after[j] == Waiting;
    }
  }

  /** No lost wake-up: if jobs end only after their message was claimed and claims raise the count, an add,
      however old its read, leaves a job waiting or comes after a claim made since the read. */
  lemma WakeupsArrive(actions: seq<Action>, caller: nat)
    requires AdvancingRun(START, actions) && caller in Run(START, actions).seen
    ensures var s := Run(START, actions);
            var c := s.seen[caller];
            && c.message < |s.counts|
            && (Woken(Step(s, AddRead(caller)).queue, c.message) || c.attemptCount < s.counts[c.message])
  {
    RunKeepsFresh(START, actions);
    WakeTakesEffectExactly(Run(START, actions), caller);
  }

  // The condition is needed.

  /** Reading the row and adding its job, time and again. */
  function Wakes(m: nat, n: nat): seq<Action> {
    if n == 0 then [] else [Read(0, m), AddRead(0)] + Wakes(m, n - 1)
  }

  lemma {:induction false} WakesAreIgnored(s: State, m: nat, n: nat)
    requires m < |s.counts| && Numbered(m, s.counts[m]) in s.queue && 0 !in s.seen
    ensures Run(s, Wakes(m, n)) == s
  {
    if n > 0 {
      var rest := [AddRead(0)] + Wakes(m, n - 1);
      assert Wakes(m, n)[0] == Read(0, m) && Wakes(m, n)[1..] == rest;
      assert rest[1..] == Wakes(m, n - 1);
      var read := Step(s, Read(0, m));
      assert Step(read, AddRead(0)).seen == s.seen;
      assert Step(read, AddRead(0)) == s;
      WakesAreIgnored(s, m, n - 1);
    }
  }

  /** A finished job under the current number: however often the message is woken, no job waits for it until
      the queue drops that one. */
  lemma FinishedNumberLosesWakeups(s: State, m: nat, n: nat)
    requires m < |s.counts| && Numbered(m, s.counts[m]) in s.queue && s.queue[Numbered(m, s.counts[m])] == Finished
    requires !Woken(s.queue, m) && 0 !in s.seen
    ensures Run(s, Wakes(m, n)) == s
    ensures var dropped := Step(s, Forget(Numbered(m, s.counts[m])));
            Woken(Step(Step(dropped, Read(0, m)), AddRead(0)).queue, m)
  {
    WakesAreIgnored(s, m, n);
    WakeTakesEffectExactly(Step(Step(s, Forget(Numbered(m, s.counts[m]))), Read(0, m)), 0);
  }

  lemma RunThree(s: State, a: Action, b: Action, c: Action)
    ensures Run(s, [a, b, c]) == Step(Step(Step(s, a), b), c)
  {
    var run := [a, b, c];
    var two := run[1..];
    var one := two[1..];
    assert one == [c] && one[1..] == [];
    assert Run(Step(Step(s, a), b), one) == Step(Step(Step(s, a), b), c);
  }

  /** A job that ends before it claims (the row could not be loaded) leaves such a number at once. */
  lemma UnclaimedEndLosesWakeups(n: nat)
    ensures var s := Step(Run(START, [Create, Read(0, 0), AddRead(0)]), Finish(Numbered(0, 0)));
            && s.counts == [0] && Run(s, Wakes(0, n)) == s && !Woken(s.queue, 0)
            && Woken(Step(Step(Step(s, Forget(Numbered(0, 0))), Read(0, 0)), AddRead(0)).queue, 0)
  {
    RunThree(START, Create, Read(0, 0), AddRead(0));
    var s := Step(Run(START, [Create, Read(0, 0), AddRead(0)]), Finish(Numbered(0, 0)));
    assert s.counts == [0] && s.queue == map[Numbered(0, 0) := Finished] && 0 !in s.seen;
    FinishedNumberLosesWakeups(s, 0, n);
  }

  /** A claim that rests on a stale read puts the count back to a number that has been used: with a finished
      job under it, and nothing waiting, later wake-ups are lost in the same way. */
  lemma StaleClaimLosesWakeups(s: State, m: nat, used: nat, n: nat)
    requires Fresh(s) && m < |s.counts| && Numbered(m, used) in s.queue && s.queue[Numbered(m, used)] == Finished
    requires !Woken(s.queue, m) && 0 !in s.seen
    ensures var back := Step(s, Claim(m, used));
            && !Advances(s, Claim(m, used))
            && Run(back, Wakes(m, n)) == back && !Woken(back.queue, m)
  {
    FinishedNumberLosesWakeups(Step(s, Claim(m, used)), m, n);
  }

  /** An old read is why an add may come to nothing: the job it names has claimed and ended meanwhile. */
  lemma OldReadAddsNothing()
    ensures var read := Run(START, [Create, Read(0, 0), AddRead(0)]);
            var s := Run(Step(read, Read(1, 0)), [Claim(0, 1), Finish(Numbered(0, 0)), AddRead(1)]);
            !Woken(s.queue, 0) && s.counts == [1]
  {
    RunThree(START, Create, Read(0, 0), AddRead(0));
    var read := Step(Run(START, [Create, Read(0, 0), AddRead(0)]), Read(1, 0));
    RunThree(read, Claim(0, 1), Finish(Numbered(0, 0)), AddRead(1));
    assert Step(Step(read, Claim(0, 1)), Finish(Numbered(0, 0))).queue == map[Numbered(0, 0) := Finished];
  }

  /** The worker's own wake-up, under a time stamp, takes effect unless the queue keeps a finished job under
      the very same stamp. */
  lemma WorkerWakesItself(s: State, m: nat, at: Time)
    requires m < |s.counts| && !(Stamped(m, at) in s.queue && s.queue[Stamped(m, at)] == Finished)
    ensures Woken(Step(s, WakeLater(m, at)).queue, m)
  {
    var after := Step(s, WakeLater(m, at)).queue;
    assert Stamped(m, at) in after && after[Stamped(m, at)] == Waiting;
  }
}
