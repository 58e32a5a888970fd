/** One agent run and the attempts of its job. Every awaited operation of an attempt may fail, before or
    after taking effect, and the process may die at any of them; what the attempts leave is a function of
    the rows they find. */
module SupportRun {
  import opened Prelude
  import opened Guardrails

  datatype RunStatus = Queued | Running | Succeeded | BlockedRun | FailedRun
  datatype DraftStatus = DraftOnly | PendingApproval | Approved

  datatype EventType =
    | RunStarted | DraftCreated | GuardrailBlocked | GuardrailRequiresApproval | HumanApprovalCreated
    | GuardrailCheckPassed | DraftAutoApproved | RunFinished | RunFailed
    | Repeatable(name: string)      // appended on every attempt

  datatype Draft = Draft(body: string, status: DraftStatus)
  datatype Approval = Approval(draft: nat, proposed: string)
  datatype Failure = Failure(attempt: nat, resolved: bool)

  /** The rows of one run. Drafts are its agent drafts, and a draft's id is its position. */
  datatype Rows = Rows(
    status: RunStatus,
    attemptCount: nat,
    events: seq<EventType>,
    drafts: seq<Draft>,
    approvals: seq<Approval>,
    failures: seq<Failure>)

  const FRESH := Rows(Queued, 0, [], [], [], [])

  predicate TerminalRun(s: RunStatus) {
    s == Succeeded || s == BlockedRun
  }

  /** The awaited operations of an attempt. */
  datatype Op =
    | UpdateRun(status: RunStatus, attempt: nat)
    | AppendOnce(event: EventType)
    | Append(event: EventType)
    | EnsureDraft(body: string, draftStatus: DraftStatus)
    | EnsureApproval(draft: nat, proposed: string)
    | RecordFailure(attempt: nat)
    | Elsewhere                     // the pipeline, the settings, the check log, the dead-letter queue

  predicate HasApproval(approvals: seq<Approval>, draft: nat) {
    exists i :: 0 <= i < |approvals| && approvals[i].draft == draft
  }

  /** The unresolved failure `recordOperationalFailure` updates. */
  function OpenFailure(fs: seq<Failure>): (r: Option<nat>)
    ensures r.Some? ==> r.value < |fs| && !fs[r.value].resolved
    ensures r.None? ==> forall i :: 0 <= i < |fs| ==> fs[i].resolved
  {
    if fs == [] then None
    else if !fs[|fs| - 1].resolved then Some(|fs| - 1)
    else OpenFailure(fs[..|fs| - 1])
  }

  function Apply(t: Rows, op: Op): Rows {
    match op
    case UpdateRun(status, attempt) => t.(status := status, attemptCount := attempt)
    case AppendOnce(event) => if event in t.events then t else t.(events := t.events + [event])
    case Append(event) => t.(events := t.events + [event])
    case EnsureDraft(body, status) =>
      t.(drafts := if t.drafts == [] then [Draft(body, status)] else t.drafts[0 := Draft(body, status)])
    case EnsureApproval(draft, proposed) =>
      if HasApproval(t.approvals, draft) then t else t.(approvals := t.approvals + [Approval(draft, proposed)])
    case RecordFailure(attempt) =>
      (match OpenFailure(t.failures)
       case Some(i) => t.(failures := t.failures[i := Failure(attempt, false)])
       case None => t.(failures := t.failures + [Failure(attempt, false)]))
    case Elsewhere => t
  }

  function ApplyAll(t: Rows, ops: seq<Op>): Rows {
    if ops == [] then t else Apply(ApplyAll(t, ops[..|ops| - 1]), ops[|ops| - 1])
  }

  // One attempt.

  datatype Disposition = Retryable | NonRetryable | ConfigurationError | BlockedByPolicy

  /** What goes wrong at the awaited operation numbered `at`, which took effect or not. */
  datatype Fault =
    | NoFault
    | Throws(at: nat, applied: bool, disposition: Disposition)
    | Dies(at: nat, applied: bool)

  /** What an attempt finds outside the run's rows: the pipeline's draft, the guardrails' decision and
      flags, the approval setting, and the faults of its main path and of its catch block. */
  datatype Attempt = Attempt(
    number: nat, limit: nat, body: string, aggregate: Decision, requireHuman: bool,
    flagged: seq<string>, fault: Fault, catchFault: Fault)

  function DraftStatusFor(aggregate: Decision, requireHuman: bool): DraftStatus {
    match aggregate
    case Block => DraftOnly
    case RequireApproval => PendingApproval
    case Allow => if requireHuman then PendingApproval else Approved
  }

  function FinalStatus(aggregate: Decision): RunStatus {
    if aggregate == Block then BlockedRun else Succeeded
  }

  function Flags(names: seq<string>): (r: seq<Op>)
    ensures |r| == |names| && forall i :: 0 <= i < |names| ==> r[i] == Append(Repeatable(names[i]))
  {
    seq(|names|, i requires 0 <= i < |names| => Append(Repeatable(names[i])))
  }

  /** The operations after the draft. */
  function DecisionOps(a: Attempt): seq<Op> {
    if a.aggregate == Block then [AppendOnce(GuardrailBlocked)]
    else if a.aggregate == RequireApproval || a.requireHuman then
      [EnsureApproval(0, a.body),
       AppendOnce(if a.aggregate == RequireApproval then GuardrailRequiresApproval else HumanApprovalCreated)]
    else [AppendOnce(GuardrailCheckPassed), AppendOnce(DraftAutoApproved)]
  }

  function MainOps(a: Attempt): seq<Op> {
    [UpdateRun(Running, a.number), AppendOnce(RunStarted), Elsewhere, Elsewhere,
     Append(Repeatable("GUARDRAIL_STARTED")), Elsewhere]
    + Flags(a.flagged)
    + [EnsureDraft(a.body, DraftStatusFor(a.aggregate, a.requireHuman)), AppendOnce(DraftCreated)]
    + DecisionOps(a)
    + [AppendOnce(RunFinished), UpdateRun(FinalStatus(a.aggregate), a.number)]
  }

  function CatchOps(a: Attempt, d: Disposition): seq<Op> {
    if d == BlockedByPolicy then [UpdateRun(BlockedRun, a.number)]
    else [AppendOnce(RunFailed), UpdateRun(FailedRun, a.number)]
         + if d == Retryable && a.number < a.limit then [] else [RecordFailure(a.number), Elsewhere]
  }

  predicate Hits(f: Fault, ops: seq<Op>) {
    !f.NoFault? && f.at < |ops|
  }

  /** The operations that take effect. */
  function Effective(ops: seq<Op>, f: Fault): seq<Op> {
    if !Hits(f, ops) then ops else if f.applied then ops[..f.at + 1] else ops[..f.at]
  }

  /** The operation numbered `at` takes effect under fault `f`. */
  predicate TakesEffect(f: Fault, at: nat) {
    f.NoFault? || at < f.at || (at == f.at && f.applied)
  }

  /** `processTicketJob`: a run that has succeeded or been blocked is left alone; otherwise the main path,
      and on a thrown error the catch block, as far as they get. */
  function Process(t: Rows, a: Attempt): Rows {
    if TerminalRun(t.status) then t
    else
      var after := ApplyAll(t, Effective(MainOps(a), a.fault));
      if Hits(a.fault, MainOps(a)) && a.fault.Throws?
      then ApplyAll(after, Effective(CatchOps(a, a.fault.disposition), a.catchFault))
      else after
  }

  function ProcessAll(t: Rows, attempts: seq<Attempt>): Rows {
    if attempts == [] then t
    else Process(ProcessAll(t, attempts[..|attempts| - 1]), attempts[|attempts| - 1])
  }

  // At most one of everything.

  function Occurrences(events: seq<EventType>, e: EventType): nat {
    if events == [] then 0 else Occurrences(events[..|events| - 1], e) + if events[|events| - 1] == e then 1 else 0
  }

  lemma {:induction false} OccursExactly(events: seq<EventType>, e: EventType)
    ensures Occurrences(events, e) == 0 <==> e !in events
  {
    if events != [] {
      OccursExactly(events[..|events| - 1], e);
      assert events == events[..|events| - 1] + [events[|events| - 1]];
    }
  }

  predicate OpenFailuresAtMostOne(fs: seq<Failure>) {
    forall i, j :: 0 <= i < j < |fs| ==> fs[i].resolved || fs[j].resolved
  }

  /** One agent draft, one approval and that for the draft, one event of each once-type, one open failure. */
  ghost predicate AtMostOnce(t: Rows) {
    && |t.drafts| <= 1
    && |t.approvals| <= 1 && (forall i :: 0 <= i < |t.approvals| ==> t.approvals[i].draft == 0)
    && (forall e: EventType :: !e.Repeatable? ==> Occurrences(t.events, e) <= 1)
    && OpenFailuresAtMostOne(t.failures)
  }

  predicate AttemptOp(op: Op) {
    (op.EnsureApproval? ==> op.draft == 0) && (op.Append? ==> op.event.Repeatable?)
  }

  lemma OpKeepsAtMostOnce(t: Rows, op: Op)
    requires AtMostOnce(t) && AttemptOp(op)
    ensures AtMostOnce(Apply(t, op))
  {
    if op.AppendOnce? || op.Append? {
      var events := Apply(t, op).events;
      if events != t.events {
        assert events[..|events| - 1] == t.events;
        OccursExactly(t.events, op.event);
      }
    }
    if op.EnsureApproval? && |t.approvals| == 1 {
      assert t.approvals[0].draft == 0;
    }
  }

  lemma {:induction false} OpsKeepAtMostOnce(t: Rows, ops: seq<Op>)
    requires AtMostOnce(t) && forall op :: op in ops ==> AttemptOp(op)
    ensures AtMostOnce(ApplyAll(t, ops))
  {
    if ops != [] {
      OpsKeepAtMostOnce(t, ops[..|ops| - 1]);
      OpKeepsAtMostOnce(ApplyAll(t, ops[..|ops| - 1]), ops[|ops| - 1]);
    }
  }

  lemma AttemptKeepsAtMostOnce(t: Rows, a: Attempt)
    requires AtMostOnce(t)
    ensures AtMostOnce(Process(t, a))
  {
    if !TerminalRun(t.status) {
      assert forall op :: op in MainOps(a) ==> AttemptOp(op);
      var main := Effective(MainOps(a), a.fault);
      assert forall op :: op in main ==> op in MainOps(a);
      OpsKeepAtMostOnce(t, main);
      if Hits(a.fault, MainOps(a)) && a.fault.Throws? {
        var ops := CatchOps(a, a.fault.disposition);
        assert forall op :: op in Effective(ops, a.catchFault) ==> op in ops;
        OpsKeepAtMostOnce(ApplyAll(t, main), Effective(ops, a.catchFault));
      }
    }
  }

  /** Whatever fails, however often, and wherever: a run never has more than one agent draft, one approval
      for it, one event of each once-type and one open operational failure. */
  lemma {:induction false} RunLeavesAtMostOne(attempts: seq<Attempt>)
    ensures AtMostOnce(ProcessAll(FRESH, attempts))
  {
    if attempts != [] {
      RunLeavesAtMostOne(attempts[..|attempts| - 1]);
      AttemptKeepsAtMostOnce(ProcessAll(FRESH, attempts[..|attempts| - 1]), attempts[|attempts| - 1]);
    }
  }

  /** A run that has succeeded or been blocked stays as it is under any further attempts. */
  lemma {:induction false} TerminalRunsAbsorb(t: Rows, attempts: seq<Attempt>)
    requires TerminalRun(t.status)
    ensures ProcessAll(t, attempts) == t
  {
    if attempts != [] {
      TerminalRunsAbsorb(t, attempts[..|attempts| - 1]);
    }
  }

  // What a finished run looks like.

  lemma {:induction false} ApplyAllSplit(t: Rows, xs: seq<Op>, ys: seq<Op>)
    ensures ApplyAll(t, xs + ys) == ApplyAll(ApplyAll(t, xs), ys)
  {
    if ys == [] {
      assert xs + ys == xs;
    } else {
      var init := ys[..|ys| - 1];
      assert (xs + ys)[..|xs + ys| - 1] == xs + init;
      ApplyAllSplit(t, xs, init);
    }
  }

  lemma ApplyOne(t: Rows, x: Op)
    ensures ApplyAll(t, [x]) == Apply(t, x)
  {
    assert [x][..0] == [];
  }

  lemma ApplyTwo(t: Rows, x: Op, y: Op)
    ensures ApplyAll(t, [x, y]) == Apply(Apply(t, x), y)
  {
    assert [x, y] == [x] + [y];
    ApplyAllSplit(t, [x], [y]);
    ApplyOne(t, x);
    ApplyOne(Apply(t, x), y);
  }

  /** Operations that leave drafts and approvals alone. */
  predicate Bookkeeping(op: Op) {
    !op.EnsureDraft? && !op.EnsureApproval?
  }

  lemma {:induction false} BookkeepingKeepsDrafts(t: Rows, ops: seq<Op>)
    requires forall op :: op in ops ==> Bookkeeping(op)
    ensures ApplyAll(t, ops).drafts == t.drafts && ApplyAll(t, ops).approvals == t.approvals
  {
    if ops != [] {
      BookkeepingKeepsDrafts(t, ops[..|ops| - 1]);
      assert Bookkeeping(ops[|ops| - 1]);
    }
  }

  /** Without an operation that writes the status, the status stays. */
  lemma {:induction false} StatusComesFromAWrite(t: Rows, ops: seq<Op>, status: RunStatus)
    requires t.status != status && forall op :: op in ops ==> !(op.UpdateRun? && op.status == status)
    ensures ApplyAll(t, ops).status != status
  {
    if ops != [] {
      StatusComesFromAWrite(t, ops[..|ops| - 1], status);
      assert ops[|ops| - 1] in ops;
    }
  }

  /** Events are only ever added. */
  lemma {:induction false} EventsStay(t: Rows, ops: seq<Op>)
    ensures forall e :: e in t.events ==> e in ApplyAll(t, ops).events
    ensures forall op :: op in ops && (op.AppendOnce? || op.Append?) ==> op.event in ApplyAll(t, ops).events
  {
    if ops != [] {
      EventsStay(t, ops[..|ops| - 1]);
      assert ops == ops[..|ops| - 1] + [ops[|ops| - 1]];
    }
  }

  /** The draft, and its approval, that an attempt which got through its main path leaves. */
  predicate Matches(t: Rows, a: Attempt) {
    && t.drafts == [Draft(a.body, DraftStatusFor(a.aggregate, a.requireHuman))]
    && (t.drafts[0].status == PendingApproval ==> HasApproval(t.approvals, 0))
    && RunStarted in t.events && DraftCreated in t.events && RunFinished in t.events
  }

  /** The main path up to the draft, and the rest. */
  function Opening(a: Attempt): seq<Op> {
    [UpdateRun(Running, a.number), AppendOnce(RunStarted), Elsewhere, Elsewhere,
     Append(Repeatable("GUARDRAIL_STARTED")), Elsewhere] + Flags(a.flagged)
  }

  function Closing(a: Attempt): seq<Op> {
    [AppendOnce(RunFinished), UpdateRun(FinalStatus(a.aggregate), a.number)]
  }

  /** The operations that write the draft and settle its approval. */
  function Middle(a: Attempt): seq<Op> {
    [EnsureDraft(a.body, DraftStatusFor(a.aggregate, a.requireHuman)), AppendOnce(DraftCreated)] + DecisionOps(a)
  }

  lemma MainOpsParts(a: Attempt)
    ensures MainOps(a) == Opening(a) + Middle(a) + Closing(a)
    ensures forall op :: op in Opening(a) || op in Closing(a) ==> Bookkeeping(op)
  {
  }

  lemma DecisionLeaves(t: Rows, a: Attempt)
    ensures var r := ApplyAll(t, DecisionOps(a));
            && r.drafts == t.drafts
            && r.approvals == if DraftStatusFor(a.aggregate, a.requireHuman) == PendingApproval && !HasApproval(t.approvals, 0)
                              then t.approvals + [Approval(0, a.body)] else t.approvals
  {
    var ops := DecisionOps(a);
    if DraftStatusFor(a.aggregate, a.requireHuman) == PendingApproval {
      ApplyTwo(t, ops[0], ops[1]);
    } else {
      BookkeepingKeepsDrafts(t, ops);
    }
  }

  lemma DraftOpsLeave(t: Rows, body: string, status: DraftStatus)
    requires |t.drafts| <= 1
    ensures var r := ApplyAll(t, [EnsureDraft(body, status), AppendOnce(DraftCreated)]);
            r.drafts == [Draft(body, status)] && r.approvals == t.approvals
  {
    ApplyTwo(t, EnsureDraft(body, status), AppendOnce(DraftCreated));
  }

  lemma MiddleLeaves(t: Rows, a: Attempt)
    requires |t.drafts| <= 1
    ensures var r := ApplyAll(t, Middle(a));
            && r.drafts == [Draft(a.body, DraftStatusFor(a.aggregate, a.requireHuman))]
            && r.approvals == if DraftStatusFor(a.aggregate, a.requireHuman) == PendingApproval && !HasApproval(t.approvals, 0)
                              then t.approvals + [Approval(0, a.body)] else t.approvals
  {
    var status := DraftStatusFor(a.aggregate, a.requireHuman);
    var ops := [EnsureDraft(a.body, status), AppendOnce(DraftCreated)];
    ApplyAllSplit(t, ops, DecisionOps(a));
    DraftOpsLeave(t, a.body, status);
    DecisionLeaves(ApplyAll(t, ops), a);
  }

  lemma MainPathDrafts(t: Rows, a: Attempt)
    requires |t.drafts| <= 1
    ensures var r := ApplyAll(t, MainOps(a));
            && r.drafts == [Draft(a.body, DraftStatusFor(a.aggregate, a.requireHuman))]
            && r.approvals == (if DraftStatusFor(a.aggregate, a.requireHuman) == PendingApproval && !HasApproval(t.approvals, 0)
                               then t.approvals + [Approval(0, a.body)] else t.approvals)
            && r.status == FinalStatus(a.aggregate)
  {
    MainOpsParts(a);
    ApplyAllSplit(t, Opening(a) + Middle(a), Closing(a));
    ApplyAllSplit(t, Opening(a), Middle(a));
    BookkeepingKeepsDrafts(t, Opening(a));
    MiddleLeaves(ApplyAll(t, Opening(a)), a);
    var last := ApplyAll(t, Opening(a) + Middle(a));
    BookkeepingKeepsDrafts(last, Closing(a));
    ApplyTwo(last, Closing(a)[0], Closing(a)[1]);
  }

  lemma MainPathEvents(t: Rows, a: Attempt)
    ensures var r := ApplyAll(t, MainOps(a));
            RunStarted in r.events && DraftCreated in r.events && RunFinished in r.events
  {
    MainOpsParts(a);
    EventsStay(t, MainOps(a));
    assert Opening(a)[1] == AppendOnce(RunStarted) && Opening(a)[1] in MainOps(a);
    assert Middle(a)[1] == AppendOnce(DraftCreated) && Middle(a)[1] in MainOps(a);
    assert Closing(a)[0] == AppendOnce(RunFinished) && Closing(a)[0] in MainOps(a);
  }

  lemma MainPathLeaves(t: Rows, a: Attempt)
    requires AtMostOnce(t)
    ensures Matches(ApplyAll(t, MainOps(a)), a)
    ensures ApplyAll(t, MainOps(a)).status == FinalStatus(a.aggregate)
  {
    MainPathDrafts(t, a);
    MainPathEvents(t, a);
    var r := ApplyAll(t, MainOps(a));
    if DraftStatusFor(a.aggregate, a.requireHuman) == PendingApproval {
      if HasApproval(t.approvals, 0) {
        assert r.approvals == t.approvals;
      } else {
        assert r.approvals[|t.approvals|].draft == 0;
      }
    }
  }

  /** Success is written by the last operation of the main path and by nothing else. */
  lemma SuccessTakesTheWholePath(t: Rows, a: Attempt)
    requires !TerminalRun(t.status) && Process(t, a).status == Succeeded
    ensures Effective(MainOps(a), a.fault) == MainOps(a) && a.aggregate != Block
  {
    var ops := MainOps(a);
    var main := Effective(ops, a.fault);
    if main != ops || a.aggregate == Block {
      forall op | op in main ensures !(op.UpdateRun? && op.status == Succeeded) {
        var i :| 0 <= i < |main| && main[i] == op;
        assert op == ops[i];
        assert i < |ops| - 1 || a.aggregate == Block;
        OnlyTheLastWritesSuccess(a, i);
      }
      StatusComesFromAWrite(t, main, Succeeded);
      if Hits(a.fault, ops) && a.fault.Throws? {
        var c := CatchOps(a, a.fault.disposition);
        assert forall op :: op in Effective(c, a.catchFault) ==> op in c;
        StatusComesFromAWrite(ApplyAll(t, main), Effective(c, a.catchFault), Succeeded);
      }
    }
  }

  lemma OnlyTheLastWritesSuccess(a: Attempt, i: nat)
    requires i < |MainOps(a)| && (i < |MainOps(a)| - 1 || a.aggregate == Block)
    ensures !(MainOps(a)[i].UpdateRun? && MainOps(a)[i].status == Succeeded)
  {
    MainOpsParts(a);
  }

  lemma CatchKeepsMatch(t: Rows, a: Attempt, ops: seq<Op>)
    requires Matches(t, a) && forall op :: op in ops ==> Bookkeeping(op)
    ensures Matches(ApplyAll(t, ops), a)
  {
    BookkeepingKeepsDrafts(t, ops);
    EventsStay(t, ops);
  }

  lemma SuccessfulAttemptMatches(t: Rows, a: Attempt)
    requires AtMostOnce(t) && !TerminalRun(t.status) && Process(t, a).status == Succeeded
    ensures Matches(Process(t, a), a) && a.aggregate != Block
  {
    SuccessTakesTheWholePath(t, a);
    MainPathLeaves(t, a);
    if Hits(a.fault, MainOps(a)) && a.fault.Throws? {
      var c := CatchOps(a, a.fault.disposition);
      assert forall op :: op in Effective(c, a.catchFault) ==> op in c;
      CatchKeepsMatch(ApplyAll(t, MainOps(a)), a, Effective(c, a.catchFault));
    }
  }

  /** Whether the run is finished after each number of attempts. */
  function FinishedAfterEach(attempts: seq<Attempt>): (r: seq<bool>)
    ensures |r| == |attempts| + 1
    ensures forall i :: 0 <= i <= |attempts| ==> r[i] == TerminalRun(ProcessAll(FRESH, attempts[..i]).status)
  {
    seq(|attempts| + 1, i requires 0 <= i <= |attempts| => TerminalRun(ProcessAll(FRESH, attempts[..i]).status))
  }

  /** The attempt that finished a run: everything after it was skipped. */
  lemma {:induction false} FinishingAttempt(attempts: seq<Attempt>) returns (k: nat)
    requires TerminalRun(ProcessAll(FRESH, attempts).status)
    ensures k < |attempts| && !TerminalRun(ProcessAll(FRESH, attempts[..k]).status)
    ensures ProcessAll(FRESH, attempts[..k + 1]) == ProcessAll(FRESH, attempts)
  {
    assert attempts[..0] == [] && attempts[..|attempts|] == attempts;
    k := FirstTurn(FinishedAfterEach(attempts));
    FinishedStays(attempts, k + 1);
  }

  lemma {:induction false} FinishedStays(attempts: seq<Attempt>, n: nat)
    requires n <= |attempts| && TerminalRun(ProcessAll(FRESH, attempts[..n]).status)
    ensures ProcessAll(FRESH, attempts) == ProcessAll(FRESH, attempts[..n])
  {
    if n == |attempts| {
      assert attempts[..n] == attempts;
    } else {
      var earlier := attempts[..|attempts| - 1];
      assert earlier[..n] == attempts[..n];
      FinishedStays(earlier, n);
    }
  }

  lemma {:induction false} ProcessLast(attempts: seq<Attempt>, k: nat)
    requires k < |attempts|
    ensures ProcessAll(FRESH, attempts[..k + 1]) == Process(ProcessAll(FRESH, attempts[..k]), attempts[k])
  {
    assert attempts[..k + 1][..k] == attempts[..k];
  }

  /** On SUCCEEDED the draft has the text, and the status, of the attempt that finished the run, a pending
      draft has its approval, and everything after that attempt was skipped. */
  lemma {:induction false} SucceededRunMatches(attempts: seq<Attempt>) returns (k: nat)
    requires ProcessAll(FRESH, attempts).status == Succeeded
    ensures k < |attempts| && attempts[k].aggregate != Block
    ensures Matches(ProcessAll(FRESH, attempts), attempts[k])
    ensures ProcessAll(FRESH, attempts[..k + 1]) == ProcessAll(FRESH, attempts)
    ensures !TerminalRun(ProcessAll(FRESH, attempts[..k]).status)
  {
    k := FinishingAttempt(attempts);
    ProcessLast(attempts, k);
    RunLeavesAtMostOne(attempts[..k]);
    SuccessfulAttemptMatches(ProcessAll(FRESH, attempts[..k]), attempts[k]);
  }

  /** An attempt without faults finishes an unfinished run. */
  lemma CleanAttemptFinishes(t: Rows, a: Attempt)
    requires AtMostOnce(t) && !TerminalRun(t.status) && a.fault == NoFault
    ensures Process(t, a).status == FinalStatus(a.aggregate) && Matches(Process(t, a), a)
  {
    MainPathLeaves(t, a);
  }

  // What a failed attempt leaves.

  /** A thrown error that no second fault interrupts: a policy error blocks the run; any other fails it, and
      opens (or renews) the operational failure exactly when it is not tried again. */
  lemma ThrownErrorLeaves(t: Rows, a: Attempt)
    requires !TerminalRun(t.status) && a.fault.Throws? && Hits(a.fault, MainOps(a)) && a.catchFault == NoFault
    ensures var before := ApplyAll(t, Effective(MainOps(a), a.fault));
            var after := Process(t, a);
            && after.attemptCount == a.number && after.drafts == before.drafts && after.approvals == before.approvals
            && (a.fault.disposition == BlockedByPolicy ==>
                  after.status == BlockedRun && after.failures == before.failures && after.events == before.events)
            && (a.fault.disposition != BlockedByPolicy ==> after.status == FailedRun && RunFailed in after.events)
            && (a.fault.disposition == Retryable && a.number < a.limit ==> after.failures == before.failures)
            && (a.fault.disposition != BlockedByPolicy && !(a.fault.disposition == Retryable && a.number < a.limit) ==>
                  Failure(a.number, false) in after.failures)
  {
    var before := ApplyAll(t, Effective(MainOps(a), a.fault));
    var ops := CatchOps(a, a.fault.disposition);
    assert forall op :: op in ops ==> Bookkeeping(op);
    BookkeepingKeepsDrafts(before, ops);
    if a.fault.disposition == BlockedByPolicy {
      ApplyOne(before, ops[0]);
    } else {
      var failed := [AppendOnce(RunFailed), UpdateRun(FailedRun, a.number)];
      ApplyTwo(before, failed[0], failed[1]);
      if a.fault.disposition == Retryable && a.number < a.limit {
        assert ops == failed;
      } else {
        var record := [RecordFailure(a.number), Elsewhere];
        assert ops == failed + record;
        ApplyAllSplit(before, failed, record);
        ApplyTwo(ApplyAll(before, failed), record[0], record[1]);
        FailureIsOpen(ApplyAll(before, failed), a.number);
      }
    }
  }

  lemma FailureIsOpen(t: Rows, attempt: nat)
    ensures Failure(attempt, false) in Apply(t, RecordFailure(attempt)).failures
  {
    var i := OpenFailure(t.failures);
    assert Apply(t, RecordFailure(attempt)).failures[if i.Some? then i.value else |t.failures|] == Failure(attempt, false);
  }

  /** A success that was committed and then reported as an error is taken back: the catch block writes
      FAILED over SUCCEEDED, and the run carries both a finished and a failed event. */
  lemma CommittedSuccessIsTakenBack(t: Rows, a: Attempt, d: Disposition)
    requires AtMostOnce(t) && !TerminalRun(t.status) && a.aggregate != Block && d != BlockedByPolicy
    requires a.fault == Throws(|MainOps(a)| - 1, true, d) && a.catchFault == NoFault
    ensures ApplyAll(t, Effective(MainOps(a), a.fault)).status == Succeeded
    ensures Process(t, a).status == FailedRun
    ensures RunFinished in Process(t, a).events && RunFailed in Process(t, a).events
  {
    assert Effective(MainOps(a), a.fault) == MainOps(a);
    MainPathLeaves(t, a);
    ThrownErrorLeaves(t, a);
    EventsStay(ApplyAll(t, MainOps(a)), Effective(CatchOps(a, d), a.catchFault));
  }

  /** How many of `ops` take effect. */
  function EffectiveCount(ops: seq<Op>, f: Fault): (n: nat)
    ensures n <= |ops| && Effective(ops, f) == ops[..n]
    ensures forall i :: 0 <= i < |ops| ==> (i < n <==> TakesEffect(f, i))
  {
    if !Hits(f, ops) then |ops| else if f.applied then f.at + 1 else f.at
  }

  /** The operation of the catch block that writes the status. */
  function StatusWrite(d: Disposition): nat {
    if d == BlockedByPolicy then 0 else 1
  }

  lemma {:induction false} CatchStatus(t: Rows, a: Attempt, d: Disposition, n: nat)
    requires n <= |CatchOps(a, d)|
    ensures ApplyAll(t, CatchOps(a, d)[..n]).status ==
              if n > StatusWrite(d) then (if d == BlockedByPolicy then BlockedRun else FailedRun) else t.status
  {
    var ops := CatchOps(a, d);
    if n > 0 {
      CatchStatus(t, a, d, n - 1);
      assert ops[..n][..n - 1] == ops[..n - 1];
    }
  }

  /** Of an attempt whose whole main path took effect, and which so committed SUCCEEDED, the success stays
      unless the last write was reported as an error and the catch block got as far as its own status write;
      then the run is BLOCKED or FAILED by the error's disposition. */
  lemma CommittedSuccessStaysExactly(t: Rows, a: Attempt)
    requires AtMostOnce(t) && !TerminalRun(t.status) && a.aggregate != Block
    requires Effective(MainOps(a), a.fault) == MainOps(a)
    ensures ApplyAll(t, Effective(MainOps(a), a.fault)).status == Succeeded
    ensures Process(t, a).status != Succeeded <==>
              && a.fault.Throws? && a.fault.at == |MainOps(a)| - 1
              && TakesEffect(a.catchFault, if a.fault.disposition == BlockedByPolicy then 0 else 1)
    ensures Process(t, a).status != Succeeded ==>
              Process(t, a).status == if a.fault.disposition == BlockedByPolicy then BlockedRun else FailedRun
  {
    var ops := MainOps(a);
    MainPathLeaves(t, a);
    if Hits(a.fault, ops) {
      assert |Effective(ops, a.fault)| == |ops|;
      if a.fault.Throws? {
        var d := a.fault.disposition;
        CatchStatus(ApplyAll(t, ops), a, d, EffectiveCount(CatchOps(a, d), a.catchFault));
      }
    }
  }

  /** Of an attempt that committed BLOCKED, the block stays unless the last write was reported as an error that
      is not a policy one and the catch block got as far as its status write; then the run is FAILED. */
  lemma CommittedBlockStaysExactly(t: Rows, a: Attempt)
    requires AtMostOnce(t) && !TerminalRun(t.status) && a.aggregate == Block
    requires Effective(MainOps(a), a.fault) == MainOps(a)
    ensures ApplyAll(t, Effective(MainOps(a), a.fault)).status == BlockedRun
    ensures Process(t, a).status != BlockedRun <==>
              && a.fault.Throws? && a.fault.at == |MainOps(a)| - 1
              && a.fault.disposition != BlockedByPolicy && TakesEffect(a.catchFault, 1)
    ensures Process(t, a).status != BlockedRun ==> Process(t, a).status == FailedRun
  {
    var ops := MainOps(a);
    MainPathLeaves(t, a);
    if Hits(a.fault, ops) {
      assert |Effective(ops, a.fault)| == |ops|;
      if a.fault.Throws? {
        var d := a.fault.disposition;
        CatchStatus(ApplyAll(t, ops), a, d, EffectiveCount(CatchOps(a, d), a.catchFault));
      }
    }
  }

  // Retries rewrite the draft and keep the approval.

  /** The attempt gets as far as asking for approval. */
  predicate Asks(a: Attempt) {
    (a.aggregate == RequireApproval || (a.aggregate == Allow && a.requireHuman)) && TakesEffect(a.fault, 8 + |a.flagged|)
  }

  /** Operations that ask for nothing but the approval of `body` for the draft. */
  predicate AsksOnlyFor(ops: seq<Op>, body: string) {
    forall i :: 0 <= i < |ops| && ops[i].EnsureApproval? ==> ops[i] == EnsureApproval(0, body)
  }

  lemma {:induction false} ApprovalsAfter(t: Rows, ops: seq<Op>, body: string)
    requires AsksOnlyFor(ops, body) && |t.approvals| <= 1 && (t.approvals != [] ==> t.approvals[0].draft == 0)
    ensures ApplyAll(t, ops).approvals ==
              if t.approvals == [] && exists i :: 0 <= i < |ops| && ops[i].EnsureApproval?
              then [Approval(0, body)] else t.approvals
  {
    if ops != [] {
      var init, last := ops[..|ops| - 1], ops[|ops| - 1];
      ApprovalsAfter(t, init, body);
      if last.EnsureApproval? {
        var now := ApplyAll(t, init).approvals;
        assert now != [] ==> now[0].draft == 0;
      } else if i :| 0 <= i < |ops| && ops[i].EnsureApproval? {
        assert init[i].EnsureApproval?;
      }
    }
  }

  lemma MainPathAsks(a: Attempt)
    ensures AsksOnlyFor(MainOps(a), a.body)
    ensures forall i :: 0 <= i < |MainOps(a)| ==>
              (MainOps(a)[i].EnsureApproval? <==>
                 i == 8 + |a.flagged| && DraftStatusFor(a.aggregate, a.requireHuman) == PendingApproval)
    ensures 8 + |a.flagged| < |MainOps(a)|
  {
    MainOpsParts(a);
    var opening, middle, closing := Opening(a), Middle(a), Closing(a);
    var ops := opening + middle + closing;
    forall i | 0 <= i < |ops|
      ensures ops[i].EnsureApproval? <==> i == 8 + |a.flagged| && DraftStatusFor(a.aggregate, a.requireHuman) == PendingApproval
      ensures ops[i].EnsureApproval? ==> ops[i] == EnsureApproval(0, a.body)
    {
      if i < |opening| {
        assert ops[i] == opening[i] && opening[i] in opening;
      } else if i < |opening| + |middle| {
        assert ops[i] == middle[i - |opening|];
      } else {
        assert ops[i] == closing[i - |opening| - |middle|];
      }
    }
  }

  /** What an attempt leaves of the approvals: one that asks adds its text when nothing was asked before. */
  lemma AttemptApprovals(t: Rows, a: Attempt)
    requires AtMostOnce(t) && !TerminalRun(t.status)
    ensures Process(t, a).approvals == if t.approvals == [] && Asks(a) then [Approval(0, a.body)] else t.approvals
  {
    var ops := MainOps(a);
    var n := EffectiveCount(ops, a.fault);
    MainPathAsks(a);
    assert AsksOnlyFor(ops[..n], a.body);
    ApprovalsAfter(t, ops[..n], a.body);
    assert Asks(a) ==> ops[..n][8 + |a.flagged|].EnsureApproval?;
    if Hits(a.fault, ops) && a.fault.Throws? {
      var c := CatchOps(a, a.fault.disposition);
      assert forall op :: op in Effective(c, a.catchFault) ==> op in c;
      BookkeepingKeepsDrafts(ApplyAll(t, ops[..n]), Effective(c, a.catchFault));
    }
  }

  lemma {:induction false} OneMoreAttempt(earlier: seq<Attempt>, last: Attempt)
    ensures ProcessAll(FRESH, earlier + [last]) == Process(ProcessAll(FRESH, earlier), last)
    ensures var t, after := ProcessAll(FRESH, earlier), ProcessAll(FRESH, earlier + [last]);
            if TerminalRun(t.status) then after == t
            else after.approvals == if t.approvals == [] && Asks(last) then [Approval(0, last.body)] else t.approvals
  {
    assert (earlier + [last])[..|earlier|] == earlier;
    RunLeavesAtMostOne(earlier);
    if !TerminalRun(ProcessAll(FRESH, earlier).status) {
      AttemptApprovals(ProcessAll(FRESH, earlier), last);
    }
  }

  predicate NoneAsks(attempts: seq<Attempt>) {
    forall j :: 0 <= j < |attempts| ==> !Asks(attempts[j])
  }

  /** The approvals after each number of attempts. */
  function ApprovalsAfterEach(attempts: seq<Attempt>): (r: seq<seq<Approval>>)
    ensures |r| == |attempts| + 1 && forall i :: 0 <= i <= |attempts| ==> r[i] == ProcessAll(FRESH, attempts[..i]).approvals
  {
    seq(|attempts| + 1, i requires 0 <= i <= |attempts| => ProcessAll(FRESH, attempts[..i]).approvals)
  }

  function AskEach(attempts: seq<Attempt>): (r: seq<bool>)
    ensures |r| == |attempts| && forall i :: 0 <= i < |attempts| ==> r[i] == Asks(attempts[i])
  {
    seq(|attempts|, i requires 0 <= i < |attempts| => Asks(attempts[i]))
  }

  function TextEach(attempts: seq<Attempt>): (r: seq<string>)
    ensures |r| == |attempts| && forall i :: 0 <= i < |attempts| ==> r[i] == attempts[i].body
  {
    seq(|attempts|, i requires 0 <= i < |attempts| => attempts[i].body)
  }

  /** What one attempt makes of the approvals. */
  predicate Follows(before: seq<Approval>, finished: bool, after: seq<Approval>, finishedAfter: bool, asks: bool, text: string) {
    if finished then after == before && finishedAfter
    else after == if before == [] && asks then [Approval(0, text)] else before
  }

  lemma {:induction false} EachFollows(attempts: seq<Attempt>, i: nat)
    requires i < |attempts|
    ensures Follows(ApprovalsAfterEach(attempts)[i], FinishedAfterEach(attempts)[i],
                    ApprovalsAfterEach(attempts)[i + 1], FinishedAfterEach(attempts)[i + 1],
                    Asks(attempts[i]), attempts[i].body)
  {
    assert attempts[..i + 1] == attempts[..i] + [attempts[i]];
    OneMoreAttempt(attempts[..i], attempts[i]);
  }

  lemma {:induction false} FirstAsk(apps: seq<seq<Approval>>, finished: seq<bool>, asks: seq<bool>, texts: seq<string>, n: nat) returns (k: nat)
    requires n < |apps| == |finished| == |asks| + 1 == |texts| + 1 && apps[0] == [] && apps[n] != []
    requires forall i :: 0 <= i < n ==> Follows(apps[i], finished[i], apps[i + 1], finished[i + 1], asks[i], texts[i])
    ensures k < n && asks[k] && !finished[k] && apps[k] == [] && apps[n] == [Approval(0, texts[k])]
    ensures forall j :: 0 <= j < k ==> !asks[j]
  {
    var m := n - 1;
    assert Follows(apps[m], finished[m], apps[m + 1], finished[m + 1], asks[m], texts[m]);
    if apps[m] != [] {
      k := FirstAsk(apps, finished, asks, texts, m);
    } else {
      k := m;
      NoAskSoFar(apps, finished, asks, texts, m);
    }
  }

  lemma {:induction false} NoAskSoFar(apps: seq<seq<Approval>>, finished: seq<bool>, asks: seq<bool>, texts: seq<string>, n: nat)
    requires n < |apps| == |finished| == |asks| + 1 == |texts| + 1 && apps[n] == [] && !finished[n]
    requires forall i :: 0 <= i < n ==> Follows(apps[i], finished[i], apps[i + 1], finished[i + 1], asks[i], texts[i])
    ensures forall j :: 0 <= j < n ==> !asks[j]
  {
    if n > 0 {
      assert Follows(apps[n - 1], finished[n - 1], apps[n - 1 + 1], finished[n - 1 + 1], asks[n - 1], texts[n - 1]);
      NoAskSoFar(apps, finished, asks, texts, n - 1);
    }
  }

  /** An approval has the text of the first attempt that asked for one, whatever the later attempts wrote. */
  lemma {:induction false} ApprovalIsTheFirstAsked(attempts: seq<Attempt>) returns (k: nat)
    requires ProcessAll(FRESH, attempts).approvals != []
    ensures k < |attempts| && Asks(attempts[k]) && NoneAsks(attempts[..k])
    ensures ProcessAll(FRESH, attempts).approvals == [Approval(0, attempts[k].body)]
    ensures ProcessAll(FRESH, attempts[..k]).approvals == []
    ensures !TerminalRun(ProcessAll(FRESH, attempts[..k]).status)
  {
    var apps, finished := ApprovalsAfterEach(attempts), FinishedAfterEach(attempts);
    var asks, texts := AskEach(attempts), TextEach(attempts);
    assert attempts[..0] == [] && attempts[..|attempts|] == attempts;
    forall i | 0 <= i < |attempts| ensures Follows(apps[i], finished[i], apps[i + 1], finished[i + 1], asks[i], texts[i]) {
      EachFollows(attempts, i);
    }
    k := FirstAsk(apps, finished, asks, texts, |attempts|);
    forall j | 0 <= j < k ensures !Asks(attempts[..k][j]) {
      assert !asks[j];
    }
  }

  /** The approval and the draft of a succeeded run agree exactly when the first attempt that asked for
      approval and the attempt that finished the run wrote the same text. */
  lemma {:induction false} ApprovalAgreesExactly(attempts: seq<Attempt>) returns (first: nat, last: nat)
    requires ProcessAll(FRESH, attempts).status == Succeeded && ProcessAll(FRESH, attempts).approvals != []
    ensures first <= last < |attempts|
    ensures Asks(attempts[first]) && NoneAsks(attempts[..first])
    ensures !TerminalRun(ProcessAll(FRESH, attempts[..last]).status)
    ensures ProcessAll(FRESH, attempts[..last + 1]) == ProcessAll(FRESH, attempts)
    ensures var t := ProcessAll(FRESH, attempts);
            && |t.approvals| == 1 == |t.drafts|
            && (t.approvals[0].proposed == t.drafts[0].body <==> attempts[first].body == attempts[last].body)
  {
    first := ApprovalIsTheFirstAsked(attempts);
    last := SucceededRunMatches(attempts);
    if last < first {
      assert attempts[..first][..last + 1] == attempts[..last + 1];
      FinishedStays(attempts[..first], last + 1);
    }
  }

  /** And they do differ: when the first attempt dies before its last two operations and the second finishes. */
  lemma RetryKeepsTheOldApproval(first: Attempt, second: Attempt)
    requires DraftStatusFor(first.aggregate, first.requireHuman) == PendingApproval
    requires DraftStatusFor(second.aggregate, second.requireHuman) == PendingApproval
    requires first.fault == Dies(|MainOps(first)| - 2, false) && second.fault == NoFault
    ensures var t := ProcessAll(FRESH, [first, second]);
            && t.status == Succeeded && |t.approvals| == 1 == |t.drafts|
            && t.approvals[0].proposed == first.body && t.drafts[0].body == second.body
  {
    ProcessTwo(first, second);
    DiesAfterApproval(first);
    assert Process(FRESH, first).approvals[0].draft == 0;
    MainPathDrafts(Process(FRESH, first), second);
  }

  lemma ProcessTwo(a: Attempt, b: Attempt)
    ensures ProcessAll(FRESH, [a, b]) == Process(Process(FRESH, a), b)
  {
    assert [a, b][..1] == [a] && [a][..0] == [];
    assert ProcessAll(FRESH, [a]) == Process(FRESH, a);
  }

  lemma DiesUnfinished(a: Attempt)
    requires a.fault == Dies(|MainOps(a)| - 2, false)
    ensures !TerminalRun(Process(FRESH, a).status)
  {
    MainOpsParts(a);
    assert Effective(MainOps(a), a.fault) == Opening(a) + Middle(a);
    StillRunning(a);
  }

  lemma DiesAfterApproval(a: Attempt)
    requires DraftStatusFor(a.aggregate, a.requireHuman) == PendingApproval
    requires a.fault == Dies(|MainOps(a)| - 2, false)
    ensures var t := Process(FRESH, a);
            !TerminalRun(t.status) && t.approvals == [Approval(0, a.body)] && |t.drafts| <= 1
  {
    DiesUnfinished(a);
    FreshHasAtMostOne();
    AttemptApprovals(FRESH, a);
    AttemptKeepsAtMostOnce(FRESH, a);
  }

  lemma FreshHasAtMostOne()
    ensures AtMostOnce(FRESH)
  {
    RunLeavesAtMostOne([]);
  }

  lemma StillRunning(a: Attempt)
    ensures !TerminalRun(ApplyAll(FRESH, Opening(a) + Middle(a)).status)
  {
    var ops := Opening(a) + Middle(a);
    assert forall op :: op in ops && op.UpdateRun? ==> op.status == Running;
    StatusComesFromAWrite(FRESH, ops, Succeeded);
    StatusComesFromAWrite(FRESH, ops, BlockedRun);
  }

  // The attempt in place.

  /** The result of an awaited operation: an exception, or the end of the process, unwinds to the caller. */
  datatype Awaited = Done | Interrupted {
    predicate IsFailure() { Interrupted? }

    function PropagateFailure(): Awaited
      requires Interrupted?
    {
      this
    }
  }

  predicate InterruptedAt(f: Fault, at: nat) {
    !f.NoFault? && at == f.at
  }

  /** What the operation numbered `at` does to rows that the ones before it have all changed. */
  lemma StepEffect(t: Rows, ops: seq<Op>, f: Fault, at: nat)
    requires at < |ops| && (f.NoFault? || f.at >= at)
    ensures var before := ApplyAll(t, ops[..at]);
            var after := if TakesEffect(f, at) then Apply(before, ops[at]) else before;
            && (InterruptedAt(f, at) ==> Hits(f, ops) && ApplyAll(t, Effective(ops, f)) == after)
            && (!InterruptedAt(f, at) ==> ApplyAll(t, ops[..at + 1]) == after)
  {
    assert ops[..at + 1][..at] == ops[..at];
  }

  /** Where the operations of the main path stand. */
  ghost predicate InPlace(a: Attempt, ops: seq<Op>) {
    var n := 6 + |a.flagged|;
    && |ops| == n + 4 + |DecisionOps(a)|
    && ops[0] == UpdateRun(Running, a.number) && ops[1] == AppendOnce(RunStarted)
    && ops[2] == Elsewhere && ops[3] == Elsewhere
    && ops[4] == Append(Repeatable("GUARDRAIL_STARTED")) && ops[5] == Elsewhere
    && (forall i :: 0 <= i < |a.flagged| ==> ops[6 + i] == Append(Repeatable(a.flagged[i])))
    && ops[n] == EnsureDraft(a.body, DraftStatusFor(a.aggregate, a.requireHuman))
    && ops[n + 1] == AppendOnce(DraftCreated)
    && (forall i :: 0 <= i < |DecisionOps(a)| ==> ops[n + 2 + i] == DecisionOps(a)[i])
    && ops[|ops| - 2] == AppendOnce(RunFinished)
    && ops[|ops| - 1] == UpdateRun(FinalStatus(a.aggregate), a.number)
  }

  lemma OpsInPlace(a: Attempt)
    ensures InPlace(a, MainOps(a))
  {
    MainOpsParts(a);
    var opening, middle, closing := Opening(a), Middle(a), Closing(a);
    var ops := opening + middle + closing;
    var n := 6 + |a.flagged|;
    assert |opening| == n;
    assert forall i :: 0 <= i < n ==> ops[i] == opening[i];
    assert forall i :: 0 <= i < |middle| ==> ops[n + i] == middle[i];
    assert forall i :: 0 <= i < |DecisionOps(a)| ==> middle[2 + i] == DecisionOps(a)[i];
    forall i | 0 <= i < |DecisionOps(a)| ensures ops[n + 2 + i] == DecisionOps(a)[i] {
      assert ops[n + (2 + i)] == middle[2 + i];
    }
    assert ops[|ops| - 2] == closing[0] && ops[|ops| - 1] == closing[1];
  }

  /** The rows of one run, changed by its job. */
  class SupportProcessor {
    var status: RunStatus
    var attemptCount: nat
    var events: seq<EventType>
    var drafts: seq<Draft>
    var approvals: seq<Approval>
    var failures: seq<Failure>

    ghost function View(): Rows
      reads this
    {
      Rows(status, attemptCount, events, drafts, approvals, failures)
    }

    constructor ()
      ensures View() == FRESH
    {
      status, attemptCount := Queued, 0;
      events, drafts, approvals, failures := [], [], [], [];
    }

    method UpdateRunRow(to: RunStatus, attempt: nat, at: nat, f: Fault) returns (r: Awaited)
      modifies this
      ensures View() == if TakesEffect(f, at) then Apply(old(View()), UpdateRun(to, attempt)) else old(View())
      ensures r.Interrupted? <==> InterruptedAt(f, at)
    {
      if TakesEffect(f, at) {
        status, attemptCount := to, attempt;
      }
      return if InterruptedAt(f, at) then Interrupted else Done;
    }

    method AppendAgentEvent(event: EventType, once: bool, at: nat, f: Fault) returns (r: Awaited)
      modifies this
      ensures View() == if TakesEffect(f, at) then Apply(old(View()), if once then AppendOnce(event) else Append(event))
                        else old(View())
      ensures r.Interrupted? <==> InterruptedAt(f, at)
    {
      if TakesEffect(f, at) {
        if !(once && event in events) {
          events := events + [event];
        }
      }
      return if InterruptedAt(f, at) then Interrupted else Done;
    }

    method EnsureRunDraft(body: string, draftStatus: DraftStatus, at: nat, f: Fault) returns (r: Awaited)
      modifies this
      ensures View() == if TakesEffect(f, at) then Apply(old(View()), EnsureDraft(body, draftStatus)) else old(View())
      ensures r.Interrupted? <==> InterruptedAt(f, at)
    {
      if TakesEffect(f, at) {
        if |drafts| > 0 {
          drafts := drafts[0 := drafts[0].(body := body, status := draftStatus)];
        } else {
          drafts := [Draft(body, draftStatus)];
        }
      }
      return if InterruptedAt(f, at) then Interrupted else Done;
    }

    method EnsureDraftApproval(draft: nat, proposed: string, at: nat, f: Fault) returns (r: Awaited)
      modifies this
      ensures View() == if TakesEffect(f, at) then Apply(old(View()), EnsureApproval(draft, proposed)) else old(View())
      ensures r.Interrupted? <==> InterruptedAt(f, at)
    {
      if TakesEffect(f, at) {
        if !HasApproval(approvals, draft) {
          approvals := approvals + [Approval(draft, proposed)];
        }
      }
      return if InterruptedAt(f, at) then Interrupted else Done;
    }

    method RecordOperationalFailure(attempt: nat, at: nat, f: Fault) returns (r: Awaited)
      modifies this
      ensures View() == if TakesEffect(f, at) then Apply(old(View()), RecordFailure(attempt)) else old(View())
      ensures r.Interrupted? <==> InterruptedAt(f, at)
    {
      if TakesEffect(f, at) {
        var open := OpenFailure(failures);
        if open.Some? {
          failures := failures[open.value := Failure(attempt, false)];
        } else {
          failures := failures + [Failure(attempt, false)];
        }
      }
      return if InterruptedAt(f, at) then Interrupted else Done;
    }

    /** An awaited call that leaves the run's rows alone. */
    method AwaitElsewhere(at: nat, f: Fault) returns (r: Awaited)
      ensures r.Interrupted? <==> InterruptedAt(f, at)
    {
      return if InterruptedAt(f, at) then Interrupted else Done;
    }

    /** The try block up to the guardrail flags; `ops` is the main path. */
    method RunPipeline(a: Attempt, ghost ops: seq<Op>, ghost start: Rows) returns (r: Awaited)
      requires InPlace(a, ops) && start == View()
      modifies this
      ensures r.Done? ==> View() == ApplyAll(start, ops[..6]) && (a.fault.NoFault? || a.fault.at >= 6)
      ensures r.Interrupted? ==> Hits(a.fault, ops) && View() == ApplyAll(start, Effective(ops, a.fault))
    {
      assert ops[..0] == [];
      StepEffect(start, ops, a.fault, 0);
      :- UpdateRunRow(Running, a.number, 0, a.fault);
      :- Record(a.fault, ops, start, 1, RunStarted);
      r := CheckDraft(a, ops, start);
    }

    /** The agents, the settings and the guardrails. */
    method CheckDraft(a: Attempt, ghost ops: seq<Op>, ghost start: Rows) returns (r: Awaited)
      requires InPlace(a, ops) && View() == ApplyAll(start, ops[..2]) && (a.fault.NoFault? || a.fault.at >= 2)
      modifies this
      ensures r.Done? ==> View() == ApplyAll(start, ops[..6]) && (a.fault.NoFault? || a.fault.at >= 6)
      ensures r.Interrupted? ==> Hits(a.fault, ops) && View() == ApplyAll(start, Effective(ops, a.fault))
    {
      StepEffect(start, ops, a.fault, 2);
      :- AwaitElsewhere(2, a.fault);
      StepEffect(start, ops, a.fault, 3);
      :- AwaitElsewhere(3, a.fault);
      StepEffect(start, ops, a.fault, 4);
      :- AppendAgentEvent(Repeatable("GUARDRAIL_STARTED"), false, 4, a.fault);
      StepEffect(start, ops, a.fault, 5);
      :- AwaitElsewhere(5, a.fault);
      return Done;
    }

    /** One event for each check that did not allow the draft. */
    method RecordFlags(a: Attempt, ghost ops: seq<Op>, ghost start: Rows) returns (r: Awaited)
      requires InPlace(a, ops) && View() == ApplyAll(start, ops[..6]) && (a.fault.NoFault? || a.fault.at >= 6)
      modifies this
      ensures r.Done? ==> View() == ApplyAll(start, ops[..6 + |a.flagged|])
                          && (a.fault.NoFault? || a.fault.at >= 6 + |a.flagged|)
      ensures r.Interrupted? ==> Hits(a.fault, ops) && View() == ApplyAll(start, Effective(ops, a.fault))
    {
      var i := 0;
      while i < |a.flagged|
        invariant 0 <= i <= |a.flagged|
        invariant View() == ApplyAll(start, ops[..6 + i]) && (a.fault.NoFault? || a.fault.at >= 6 + i)
      {
        StepEffect(start, ops, a.fault, 6 + i);
        :- AppendAgentEvent(Repeatable(a.flagged[i]), false, 6 + i, a.fault);
        i := i + 1;
      }
      return Done;
    }

    /** The draft, what the decision calls for, and the end of the run. */
    method FinishRun(a: Attempt, ghost ops: seq<Op>, ghost start: Rows) returns (r: Awaited)
      requires InPlace(a, ops) && View() == ApplyAll(start, ops[..6 + |a.flagged|])
      requires a.fault.NoFault? || a.fault.at >= 6 + |a.flagged|
      modifies this
      ensures r.Done? ==> !Hits(a.fault, ops) && View() == ApplyAll(start, ops)
      ensures r.Interrupted? ==> Hits(a.fault, ops) && View() == ApplyAll(start, Effective(ops, a.fault))
    {
      var at := 6 + |a.flagged|;
      StepEffect(start, ops, a.fault, at);
      :- EnsureRunDraft(a.body, DraftStatusFor(a.aggregate, a.requireHuman), at, a.fault);
      StepEffect(start, ops, a.fault, at + 1);
      :- AppendAgentEvent(DraftCreated, true, at + 1, a.fault);
      :- RecordDecision(a, ops, start, at + 2);
      :- EndRun(a, ops, start, at + 2 + |DecisionOps(a)|);
      return Done;
    }

    method EndRun(a: Attempt, ghost ops: seq<Op>, ghost start: Rows, at: nat) returns (r: Awaited)
      requires InPlace(a, ops) && at == |ops| - 2 && View() == ApplyAll(start, ops[..at])
      requires a.fault.NoFault? || a.fault.at >= at
      modifies this
      ensures r.Done? ==> !Hits(a.fault, ops) && View() == ApplyAll(start, ops)
      ensures r.Interrupted? ==> Hits(a.fault, ops) && View() == ApplyAll(start, Effective(ops, a.fault))
    {
      assert ops[at] == AppendOnce(RunFinished);
      :- Record(a.fault, ops, start, at, RunFinished);
      StepEffect(start, ops, a.fault, at + 1);
      :- UpdateRunRow(if a.aggregate == Block then BlockedRun else Succeeded, a.number, at + 1, a.fault);
      assert ops[..|ops|] == ops;
      return Done;
    }

    /** What the guardrails' decision calls for. */
    method RecordDecision(a: Attempt, ghost ops: seq<Op>, ghost start: Rows, at: nat) returns (r: Awaited)
      requires InPlace(a, ops) && at == 8 + |a.flagged| && View() == ApplyAll(start, ops[..at])
      requires a.fault.NoFault? || a.fault.at >= at
      modifies this
      ensures r.Done? ==> View() == ApplyAll(start, ops[..at + |DecisionOps(a)|])
                          && (a.fault.NoFault? || a.fault.at >= at + |DecisionOps(a)|)
      ensures r.Interrupted? ==> Hits(a.fault, ops) && View() == ApplyAll(start, Effective(ops, a.fault))
    {
      assert ops[at] == DecisionOps(a)[0];
      assert |DecisionOps(a)| == 2 ==> ops[at + 1] == DecisionOps(a)[1];
      if a.aggregate == Block {
        r := Record(a.fault, ops, start, at, GuardrailBlocked);
      } else if a.aggregate == RequireApproval || a.requireHuman {
        r := RequestApproval(a, ops, start, at,
                             if a.aggregate == RequireApproval then GuardrailRequiresApproval else HumanApprovalCreated);
      } else {
        :- Record(a.fault, ops, start, at, GuardrailCheckPassed);
        r := Record(a.fault, ops, start, at + 1, DraftAutoApproved);
      }
    }

    method RequestApproval(a: Attempt, ghost ops: seq<Op>, ghost start: Rows, at: nat, event: EventType) returns (r: Awaited)
      requires at + 1 < |ops| && ops[at] == EnsureApproval(0, a.body) && ops[at + 1] == AppendOnce(event)
      requires View() == ApplyAll(start, ops[..at]) && (a.fault.NoFault? || a.fault.at >= at)
      modifies this
      ensures r.Done? ==> View() == ApplyAll(start, ops[..at + 2]) && (a.fault.NoFault? || a.fault.at >= at + 2)
      ensures r.Interrupted? ==> Hits(a.fault, ops) && View() == ApplyAll(start, Effective(ops, a.fault))
    {
      StepEffect(start, ops, a.fault, at);
      :- EnsureDraftApproval(0, a.body, at, a.fault);
      r := Record(a.fault, ops, start, at + 1, event);
    }

    /** The once-event that is the operation numbered `at`. */
    method Record(f: Fault, ghost ops: seq<Op>, ghost start: Rows, at: nat, event: EventType) returns (r: Awaited)
      requires at < |ops| && ops[at] == AppendOnce(event)
      requires View() == ApplyAll(start, ops[..at]) && (f.NoFault? || f.at >= at)
      modifies this
      ensures r.Done? ==> View() == ApplyAll(start, ops[..at + 1]) && (f.NoFault? || f.at >= at + 1)
      ensures r.Interrupted? ==> Hits(f, ops) && View() == ApplyAll(start, Effective(ops, f))
    {
      StepEffect(start, ops, f, at);
      r := AppendAgentEvent(event, true, at, f);
    }

    /** The catch block. */
    method HandleError(a: Attempt, d: Disposition)
      modifies this
      ensures View() == ApplyAll(old(View()), Effective(CatchOps(a, d), a.catchFault))
    {
      var unwound := CatchPath(a, d);
    }

    method CatchPath(a: Attempt, d: Disposition) returns (r: Awaited)
      modifies this
      ensures View() == ApplyAll(old(View()), Effective(CatchOps(a, d), a.catchFault))
    {
      ghost var ops := CatchOps(a, d);
      ghost var start := View();
      if d == BlockedByPolicy {
        StepEffect(start, ops, a.catchFault, 0);
        :- UpdateRunRow(BlockedRun, a.number, 0, a.catchFault);
        assert ops[..1] == ops;
        return Done;
      }
      :- Record(a.catchFault, ops, start, 0, RunFailed);
      StepEffect(start, ops, a.catchFault, 1);
      :- UpdateRunRow(FailedRun, a.number, 1, a.catchFault);
      if d == Retryable && a.number < a.limit {
        assert ops[..2] == ops;
        return Done;
      }
      r := GiveUp(a, ops, start);
    }

    /** The operational failure and the dead-letter job. */
    method GiveUp(a: Attempt, ghost ops: seq<Op>, ghost start: Rows) returns (r: Awaited)
      requires |ops| == 4 && ops[2] == RecordFailure(a.number) && ops[3] == Elsewhere
      requires View() == ApplyAll(start, ops[..2]) && (a.catchFault.NoFault? || a.catchFault.at >= 2)
      modifies this
      ensures View() == ApplyAll(start, Effective(ops, a.catchFault))
    {
      StepEffect(start, ops, a.catchFault, 2);
      :- RecordOperationalFailure(a.number, 2, a.catchFault);
      StepEffect(start, ops, a.catchFault, 3);
      :- AwaitElsewhere(3, a.catchFault);
      assert ops[..4] == ops;
      return Done;
    }

    /** `processTicketJob`. */
    method ProcessTicketJob(a: Attempt)
      modifies this
      ensures View() == Process(old(View()), a)
    {
      if status == Succeeded || status == BlockedRun {
        return;
      }
      ghost var ops := MainOps(a);
      OpsInPlace(a);
      var r := MainPath(a, ops, View());
      if r.Interrupted? && a.fault.Throws? {
        HandleError(a, a.fault.disposition);
      }
    }

    /** The try block. */
    method MainPath(a: Attempt, ghost ops: seq<Op>, ghost start: Rows) returns (r: Awaited)
      requires InPlace(a, ops) && start == View()
      modifies this
      ensures View() == ApplyAll(start, Effective(ops, a.fault))
      ensures r.Interrupted? <==> Hits(a.fault, ops)
    {
      assert start == View();
      :- RunPipeline(a, ops, start);
      :- RecordFlags(a, ops, start);
      :- FinishRun(a, ops, start);
      return Done;
    }
  }
}
