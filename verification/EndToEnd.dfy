/** The inbound and agent halves together: webhook deliveries, the outbox's reconcilers and the attempts of
    support jobs interleave over the same runs. One execution of a job id runs at a time. */
module EndToEnd {
  import opened Prelude
  import Inbound
  import InboundStore
  import opened InboundOutbox
  import Mail = InboundRuns
  import Threading = InboundThreading
  import Guardrails
  import Support = SupportRun
  import Outcomes = SupportOutcomes

  /** `rows` holds the runs that some attempt has touched; the others are as ingest created them. */
  datatype System = System(db: Inbound.Db, outbox: State, rows: map<nat, Support.Rows>)

  datatype Event =
    | Deliver(message: Inbound.Event)                   // a verified webhook, redelivered or not
    | Dispatching(action: Action)                       // any step of the outbox but the ingest's own; the
                                                        // queue drops a job only once it has been attempted
    | Execute(run: nat, attempt: Support.Attempt)       // one attempt of a queued job, and its crash or failure

  const START := System(Inbound.EMPTY, INITIAL, map[])

  function RowsOf(rows: map<nat, Support.Rows>, run: nat): Support.Rows {
    if run in rows then rows[run] else Support.FRESH
  }

  function Next(s: System, e: Event): System
    requires Inbound.Valid(s.db)
  {
    match e
    case Deliver(message) =>
      System(Inbound.Ingest(s.db, message),
             if Inbound.Accepts(s.db, message) then Step(s.outbox, Create) else s.outbox, s.rows)
    case Dispatching(action) =>
      if action.Create? || (action.Forget? && action.job.run !in s.rows) then s
      else s.(outbox := Step(s.outbox, action))
    case Execute(run, attempt) =>
      if SupportJob(run) !in s.outbox.queue then s
      else s.(rows := s.rows[run := Support.Process(RowsOf(s.rows, run), attempt)])
  }

  ghost predicate RunSound(t: Support.Rows) {
    Support.AtMostOnce(t) && (t.status == Support.Succeeded ==> |t.drafts| == 1)
  }

  /** The outbox has one row for each run, each received event has a run, and every run is sound. */
  ghost predicate Sound(s: System) {
    && Inbound.Valid(s.db)
    && InboundOutbox.Sound(s.outbox)
    && |s.outbox.dispatches| == |s.db.dispatches|
    && (forall id :: id in s.db.receipts ==> exists i :: 0 <= i < |s.db.dispatches| && s.db.dispatches[i].receipt == id)
    && (forall run :: run in s.rows ==> RunSound(s.rows[run]) && SupportJob(run) in s.outbox.added)
    && (forall job :: job in s.outbox.added ==> job in s.outbox.queue || job.run in s.rows)
  }

  lemma FreshIsSound()
    ensures RunSound(Support.FRESH)
  {
    Support.RunLeavesAtMostOne([]);
  }

  lemma ExecuteKeepsRunSound(t: Support.Rows, a: Support.Attempt)
    requires RunSound(t)
    ensures RunSound(Support.Process(t, a))
  {
    Support.AttemptKeepsAtMostOnce(t, a);
    if !Support.TerminalRun(t.status) && Support.Process(t, a).status == Support.Succeeded {
      Support.SuccessfulAttemptMatches(t, a);
    }
  }

  lemma DeliverKeepsReceipts(db: Inbound.Db, e: Inbound.Event)
    requires Inbound.Valid(db)
    requires forall id :: id in db.receipts ==> exists i :: 0 <= i < |db.dispatches| && db.dispatches[i].receipt == id
    ensures var after := Inbound.Ingest(db, e);
            && |after.dispatches| == |db.dispatches| + (if Inbound.Accepts(db, e) then 1 else 0)
            && forall id :: id in after.receipts ==>
                 exists i :: 0 <= i < |after.dispatches| && after.dispatches[i].receipt == id
  {
    var after := Inbound.Ingest(db, e);
    forall id | id in after.receipts ensures exists i :: 0 <= i < |after.dispatches| && after.dispatches[i].receipt == id {
      if id in db.receipts {
        var i :| 0 <= i < |db.dispatches| && db.dispatches[i].receipt == id;
        assert after.dispatches[i] == db.dispatches[i];
      } else {
        assert after.dispatches[|db.dispatches|].receipt == id;
      }
    }
  }

  lemma NextKeepsSound(s: System, e: Event)
    requires Sound(s)
    ensures Sound(Next(s, e))
  {
    match e {
      case Deliver(message) =>
        InboundStore.IngestKeepsValid(s.db, message);
        DeliverKeepsReceipts(s.db, message);
        StepKeepsSound(s.outbox, Create);
      case Dispatching(action) =>
        if !action.Create? {
          StepKeepsSound(s.outbox, action);
          RowsAreCreatedByIngest(s.outbox, action);
          JobsAreKnown(s, action);
        }
      case Execute(run, attempt) =>
        FreshIsSound();
        ExecuteKeepsRunSound(RowsOf(s.rows, run), attempt);
    }
  }

  lemma JobsAreKnown(s: System, a: Action)
    requires Sound(s) && !a.Create?
    ensures var after := Next(s, Dispatching(a)).outbox;
            && s.outbox.added <= after.added
            && forall job :: job in after.added ==> job in after.queue || job.run in s.rows
  {
    var after := Next(s, Dispatching(a)).outbox;
    JobsStay(s.outbox, a, SupportJob(0));
    forall job | job in after.added ensures job in after.queue || job.run in s.rows {
      JobsStay(s.outbox, a, job);
    }
  }

  lemma RowsAreCreatedByIngest(s: State, a: Action)
    requires !a.Create?
    ensures |Step(s, a).dispatches| == |s.dispatches|
  {
  }

  function Run(s: System, events: seq<Event>): (r: System)
    requires Sound(s)
    ensures Sound(r)
    decreases |events|
  {
    if events == [] then s
    else
      NextKeepsSound(s, events[0]);
      Run(Next(s, events[0]), events[1..])
  }

  lemma StartIsSound()
    ensures Sound(START)
  {
  }

  /** The system after `events`, from the start. */
  function Reached(events: seq<Event>): (r: System)
    ensures Sound(r)
  {
    StartIsSound();
    Run(START, events)
  }

  // What one provider event leads to.

  /** The agent runs, and the agent drafts, that stem from the event `id`; run numbers are positions. */
  function RunsFor(dispatches: seq<Inbound.Dispatch>, id: string): nat {
    if dispatches == [] then 0
    else RunsFor(dispatches[..|dispatches| - 1], id) + if dispatches[|dispatches| - 1].receipt == id then 1 else 0
  }

  function DraftsFor(dispatches: seq<Inbound.Dispatch>, rows: map<nat, Support.Rows>, id: string): nat {
    if dispatches == [] then 0
    else DraftsFor(dispatches[..|dispatches| - 1], rows, id)
         + if dispatches[|dispatches| - 1].receipt == id then |RowsOf(rows, dispatches[|dispatches| - 1].run).drafts| else 0
  }

  lemma {:induction false} NoneFor(dispatches: seq<Inbound.Dispatch>, rows: map<nat, Support.Rows>, id: string)
    requires forall i :: 0 <= i < |dispatches| ==> dispatches[i].receipt != id
    ensures RunsFor(dispatches, id) == 0 && DraftsFor(dispatches, rows, id) == 0
  {
    if dispatches != [] {
      NoneFor(dispatches[..|dispatches| - 1], rows, id);
    }
  }

  lemma {:induction false} OneFor(dispatches: seq<Inbound.Dispatch>, rows: map<nat, Support.Rows>, k: nat)
    requires k < |dispatches|
    requires forall i, j :: 0 <= i < j < |dispatches| ==> dispatches[i].receipt != dispatches[j].receipt
    ensures RunsFor(dispatches, dispatches[k].receipt) == 1
    ensures DraftsFor(dispatches, rows, dispatches[k].receipt) == |RowsOf(rows, dispatches[k].run).drafts|
  {
    var earlier := dispatches[..|dispatches| - 1];
    if k == |earlier| {
      NoneFor(earlier, rows, dispatches[k].receipt);
    } else {
      OneFor(earlier, rows, k);
    }
  }

  /** What the event `id` has led to: one run if it was received and none otherwise, at most one draft, and
      in its run at most one of everything else that is meant to be there once. */
  ghost predicate OnceFor(s: System, id: string) {
    && RunsFor(s.db.dispatches, id) == (if id in s.db.receipts then 1 else 0)
    && DraftsFor(s.db.dispatches, s.rows, id) <= 1
    && forall i :: 0 <= i < |s.db.dispatches| && s.db.dispatches[i].receipt == id ==>
         && Support.AtMostOnce(RowsOf(s.rows, i))
         && (RowsOf(s.rows, i).status == Support.Succeeded ==> DraftsFor(s.db.dispatches, s.rows, id) == 1)
  }

  lemma RunsAreSound(s: System, run: nat)
    requires Sound(s)
    ensures RunSound(RowsOf(s.rows, run))
  {
    FreshIsSound();
  }

  lemma SoundMeansOnce(s: System, id: string)
    requires Sound(s)
    ensures OnceFor(s, id)
  {
    var ds := s.db.dispatches;
    if id in s.db.receipts {
      var k :| 0 <= k < |ds| && ds[k].receipt == id;
      OneFor(ds, s.rows, k);
      RunsAreSound(s, k);
      assert forall i :: 0 <= i < |ds| && ds[i].receipt == id ==> i == k;
    } else {
      assert forall i :: 0 <= i < |ds| ==> ds[i].receipt in s.db.receipts;
      NoneFor(ds, s.rows, id);
    }
  }

  /** Exactly-once effect: whatever redeliveries, re-dispatches, late or ambiguous adds, crashes and job
      retries a run of the system holds, a provider event has one agent run if it was received and none
      otherwise, and at most one agent draft, exactly one if its run succeeded. */
  lemma ExactlyOnceEffect(events: seq<Event>, id: string)
    ensures OnceFor(Reached(events), id)
  {
    SoundMeansOnce(Reached(events), id);
  }

  /** And the effect is not lost: once the outbox row of an event is completed, its job is queued or has been
      attempted already, and while it is queued, any attempt that meets no fault leaves a run that is not yet
      finished with exactly one draft for the event. */
  lemma CompletedDispatchIsWorked(s: System, k: nat, a: Support.Attempt)
    requires Sound(s) && k < |s.outbox.dispatches| && s.outbox.dispatches[k].status == Completed
    requires a.fault == Support.NoFault && !Support.TerminalRun(RowsOf(s.rows, k).status)
    ensures SupportJob(k) in s.outbox.queue || k in s.rows
    ensures var after := Next(s, Execute(k, a));
            SupportJob(k) in s.outbox.queue ==>
              && after.db == s.db
              && DraftsFor(s.db.dispatches, after.rows, s.db.dispatches[k].receipt) == 1
              && Support.TerminalRun(RowsOf(after.rows, k).status)
  {
    FreshIsSound();
    Support.CleanAttemptFinishes(RowsOf(s.rows, k), a);
    OneFor(s.db.dispatches, Next(s, Execute(k, a)).rows, k);
  }

  // What each run is about.

  lemma NextKeepsRunsFollow(s: System, e: Event)
    requires Sound(s) && Mail.RunsFollow(s.db)
    ensures Mail.RunsFollow(Next(s, e).db)
  {
    if e.Deliver? {
      Mail.ArrivalRunsFollow(s.db, Threading.In(e.message));
    }
  }

  lemma {:induction false} RunKeepsRunsFollow(s: System, events: seq<Event>)
    requires Sound(s) && Mail.RunsFollow(s.db)
    ensures Mail.RunsFollow(Run(s, events).db)
    decreases |events|
  {
    if events != [] {
      NextKeepsSound(s, events[0]);
      NextKeepsRunsFollow(s, events[0]);
      RunKeepsRunsFollow(Next(s, events[0]), events[1..]);
    }
  }

  /** The run of a received event works on the ticket of the conversation that holds the event's message,
      whatever else happened. */
  lemma RunsAnswerTheirEvent(events: seq<Event>, id: string) returns (k: nat)
    requires id in Reached(events).db.receipts
    ensures var db := Reached(events).db;
            && k < |db.dispatches| && k < |db.runs| && db.dispatches[k] == Inbound.Dispatch(k, id)
            && (exists m :: m in db.messages && m.eventId == Some(id))
            && (forall m :: m in db.messages && m.eventId == Some(id) ==>
                  m.conversation < |db.conversations| && db.runs[k] == db.conversations[m.conversation].ticket)
  {
    StartIsSound();
    RunKeepsRunsFollow(START, events);
    var db := Reached(events).db;
    k :| 0 <= k < |db.dispatches| && db.dispatches[k].receipt == id;
    assert Mail.RunFollows(db, k);
  }

  /** The run's rows are what the given attempts, all of them events of the run, made of them. */
  ghost predicate WorkedBy(t: Support.Rows, run: nat, events: seq<Event>, attempts: seq<Support.Attempt>) {
    && t == Support.ProcessAll(Support.FRESH, attempts)
    && forall a :: a in attempts ==> Execute(run, a) in events
  }

  ghost predicate Worked(rows: map<nat, Support.Rows>, events: seq<Event>) {
    forall run :: run in rows ==> exists attempts :: WorkedBy(rows[run], run, events, attempts)
  }

  lemma WorkedEarlier(t: Support.Rows, run: nat, events: seq<Event>, e: Event, attempts: seq<Support.Attempt>)
    requires WorkedBy(t, run, events, attempts)
    ensures WorkedBy(t, run, events + [e], attempts)
  {
  }

  lemma WorkedOnceMore(t: Support.Rows, run: nat, events: seq<Event>, a: Support.Attempt, attempts: seq<Support.Attempt>)
    requires WorkedBy(t, run, events, attempts)
    ensures WorkedBy(Support.Process(t, a), run, events + [Execute(run, a)], attempts + [a])
  {
    Support.OneMoreAttempt(attempts, a);
  }

  lemma StillWorked(rows: map<nat, Support.Rows>, events: seq<Event>, e: Event)
    requires Worked(rows, events)
    ensures Worked(rows, events + [e])
  {
    forall run | run in rows ensures exists attempts :: WorkedBy(rows[run], run, events + [e], attempts) {
      var attempts :| WorkedBy(rows[run], run, events, attempts);
      WorkedEarlier(rows[run], run, events, e, attempts);
    }
  }

  lemma ExecuteIsWorked(rows: map<nat, Support.Rows>, events: seq<Event>, run: nat, a: Support.Attempt)
    requires Worked(rows, events)
    ensures Worked(rows[run := Support.Process(RowsOf(rows, run), a)], events + [Execute(run, a)])
  {
    StillWorked(rows, events, Execute(run, a));
    if run in rows {
      var attempts :| WorkedBy(rows[run], run, events, attempts);
      WorkedOnceMore(rows[run], run, events, a, attempts);
    } else {
      assert WorkedBy(Support.FRESH, run, events, []);
      WorkedOnceMore(Support.FRESH, run, events, a, []);
    }
  }

  lemma NextIsWorked(s: System, events: seq<Event>, e: Event)
    requires Sound(s) && Worked(s.rows, events)
    ensures Worked(Next(s, e).rows, events + [e])
  {
    StillWorked(s.rows, events, e);
    if e.Execute? {
      ExecuteIsWorked(s.rows, events, e.run, e.attempt);
    }
  }

  lemma {:induction false} RunSnoc(s: System, events: seq<Event>, e: Event)
    requires Sound(s)
    ensures Run(s, events + [e]) == Next(Run(s, events), e)
    decreases |events|
  {
    NextKeepsSound(s, e);
    if events == [] {
      assert [e][1..] == [];
    } else {
      NextKeepsSound(s, events[0]);
      assert (events + [e])[1..] == events[1..] + [e];
      RunSnoc(Next(s, events[0]), events[1..], e);
    }
  }

  lemma ReachedSnoc(events: seq<Event>, e: Event)
    ensures Reached(events + [e]) == Next(Reached(events), e)
  {
    StartIsSound();
    RunSnoc(START, events, e);
  }

  lemma OneMoreIsWorked(events: seq<Event>, e: Event)
    requires Worked(Reached(events).rows, events)
    ensures Worked(Reached(events + [e]).rows, events + [e])
  {
    ReachedSnoc(events, e);
    NextIsWorked(Reached(events), events, e);
  }

  lemma NothingWorkedYet()
    ensures Worked(Reached([]).rows, [])
  {
    StartIsSound();
  }

  lemma {:induction false} ReachedIsWorked(events: seq<Event>)
    ensures Worked(Reached(events).rows, events)
  {
    if events == [] {
      NothingWorkedYet();
    } else {
      var earlier, last := events[..|events| - 1], events[|events| - 1];
      assert events == earlier + [last];
      ReachedIsWorked(earlier);
      OneMoreIsWorked(earlier, last);
    }
  }

  /** A draft that goes out without a person was allowed by the guardrails of an attempt on its own run, whose
      organization did not ask for one, and has the text that attempt drafted. */
  lemma AutoApprovalsAreAllowed(events: seq<Event>, run: nat) returns (a: Support.Attempt)
    requires run in Reached(events).rows && Reached(events).rows[run].drafts != []
    requires Reached(events).rows[run].drafts[0].status == Support.Approved
    ensures Execute(run, a) in events && a.aggregate == Guardrails.Allow && !a.requireHuman
    ensures Reached(events).rows[run].drafts[0].body == a.body
  {
    ReachedIsWorked(events);
    var attempts :| WorkedBy(Reached(events).rows[run], run, events, attempts);
    var k := Outcomes.DraftIsTheLastWritten(attempts);
    a := attempts[k];
  }
}
