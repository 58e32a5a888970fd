/** What the attempts of a support job leave, in plain statuses: which drafts go out without a person, which
    wait for one, and which events tell why. */
module SupportOutcomes {
  import opened Prelude
  import opened Guardrails
  import opened SupportRun

  /** Nothing stands against the reply, and the organization does not ask for a person. */
  predicate Unattended(a: Attempt) {
    a.aggregate == Allow && !a.requireHuman
  }

  /** The attempt gets as far as writing its draft. */
  predicate Writes(a: Attempt) {
    TakesEffect(a.fault, 6 + |a.flagged|)
  }

  // Drafts.

  /** Operations that write no draft but `draft`. */
  predicate WritesOnly(ops: seq<Op>, draft: Draft) {
    forall i :: 0 <= i < |ops| && ops[i].EnsureDraft? ==> ops[i] == EnsureDraft(draft.body, draft.status)
  }

  lemma {:induction false} DraftsAfter(t: Rows, ops: seq<Op>, draft: Draft)
    requires WritesOnly(ops, draft) && |t.drafts| <= 1
    ensures ApplyAll(t, ops).drafts ==
              if exists i :: 0 <= i < |ops| && ops[i].EnsureDraft? then [draft] else t.drafts
  {
    if ops != [] {
      var init, last := ops[..|ops| - 1], ops[|ops| - 1];
      DraftsAfter(t, init, draft);
      if !last.EnsureDraft? {
        if i :| 0 <= i < |ops| && ops[i].EnsureDraft? {
          assert init[i].EnsureDraft?;
        }
      }
    }
  }

  /** The draft an attempt writes: unattended it is approved, blocked it stays a draft, otherwise it waits. */
  function DraftOf(a: Attempt): Draft {
    Draft(a.body, if a.aggregate == Block then DraftOnly else if Unattended(a) then Approved else PendingApproval)
  }

  lemma MainPathWrites(a: Attempt)
    ensures WritesOnly(MainOps(a), DraftOf(a)) && 6 + |a.flagged| < |MainOps(a)|
    ensures forall i :: 0 <= i < |MainOps(a)| ==> (MainOps(a)[i].EnsureDraft? <==> i == 6 + |a.flagged|)
  {
    MainOpsParts(a);
    var opening, middle, closing := Opening(a), Middle(a), Closing(a);
    var ops := opening + middle + closing;
    forall i | 0 <= i < |ops|
      ensures ops[i].EnsureDraft? <==> i == 6 + |a.flagged|
      ensures ops[i].EnsureDraft? ==> ops[i] == EnsureDraft(DraftOf(a).body, DraftOf(a).status)
    {
      if i < |opening| {
        assert ops[i] == opening[i] && opening[i] in opening;
      } else if i < |opening| + |middle| {
        assert ops[i] == middle[i - |opening|];
      } else {
        assert ops[i] == closing[i - |opening| - |middle|];
      }
    }
  }

  lemma AttemptDrafts(t: Rows, a: Attempt)
    requires |t.drafts| <= 1 && !TerminalRun(t.status)
    ensures Process(t, a).drafts == if Writes(a) then [DraftOf(a)] else t.drafts
  {
    var ops := MainOps(a);
    var n := EffectiveCount(ops, a.fault);
    MainPathWrites(a);
    assert WritesOnly(ops[..n], DraftOf(a));
    DraftsAfter(t, ops[..n], DraftOf(a));
    assert Writes(a) ==> ops[..n][6 + |a.flagged|].EnsureDraft?;
    if Hits(a.fault, ops) && a.fault.Throws? {
      var c := CatchOps(a, a.fault.disposition);
      assert forall op :: op in Effective(c, a.catchFault) ==> op in c;
      BookkeepingKeepsDrafts(ApplyAll(t, ops[..n]), Effective(c, a.catchFault));
    }
  }

  /** The drafts after each number of attempts. */
  function DraftsAfterEach(attempts: seq<Attempt>): (r: seq<seq<Draft>>)
    ensures |r| == |attempts| + 1 && forall i :: 0 <= i <= |attempts| ==> r[i] == ProcessAll(FRESH, attempts[..i]).drafts
  {
    seq(|attempts| + 1, i requires 0 <= i <= |attempts| => ProcessAll(FRESH, attempts[..i]).drafts)
  }

  lemma EachWrites(attempts: seq<Attempt>, i: nat)
    requires i < |attempts|
    ensures DraftsAfterEach(attempts)[i + 1] ==
              if !FinishedAfterEach(attempts)[i] && Writes(attempts[i]) then [DraftOf(attempts[i])]
              else DraftsAfterEach(attempts)[i]
  {
    ProcessLast(attempts, i);
    RunLeavesAtMostOne(attempts[..i]);
    if !FinishedAfterEach(attempts)[i] {
      AttemptDrafts(ProcessAll(FRESH, attempts[..i]), attempts[i]);
    }
  }

  lemma {:induction false} LastWriteUpTo(attempts: seq<Attempt>, n: nat) returns (k: nat)
    requires n <= |attempts| && DraftsAfterEach(attempts)[n] != []
    ensures k < n && Writes(attempts[k]) && !FinishedAfterEach(attempts)[k]
    ensures DraftsAfterEach(attempts)[n] == [DraftOf(attempts[k])]
  {
    assert n > 0 by {
      assert attempts[..0] == [];
    }
    EachWrites(attempts, n - 1);
    if !FinishedAfterEach(attempts)[n - 1] && Writes(attempts[n - 1]) {
      k := n - 1;
    } else {
      k := LastWriteUpTo(attempts, n - 1);
    }
  }

  /** After any attempts, a run's draft is the one its last writing attempt wrote: APPROVED only if that
      attempt had nothing against the reply and no person to ask, PENDING_APPROVAL only if there was one to
      ask, DRAFT only if it was blocked. */
  lemma DraftIsTheLastWritten(attempts: seq<Attempt>) returns (k: nat)
    requires ProcessAll(FRESH, attempts).drafts != []
    ensures k < |attempts| && !TerminalRun(ProcessAll(FRESH, attempts[..k]).status)
    ensures TakesEffect(attempts[k].fault, 6 + |attempts[k].flagged|)
    ensures var a, drafts := attempts[k], ProcessAll(FRESH, attempts).drafts;
            && |drafts| == 1 && drafts[0].body == a.body
            && (drafts[0].status == Approved <==> a.aggregate == Allow && !a.requireHuman)
            && (drafts[0].status == PendingApproval <==> a.aggregate == RequireApproval || (a.aggregate == Allow && a.requireHuman))
            && (drafts[0].status == DraftOnly <==> a.aggregate == Block)
  {
    assert attempts[..|attempts|] == attempts;
    k := LastWriteUpTo(attempts, |attempts|);
  }

  // Status, attempt number and failures along the main path.

  /** Operations that start a run, later finish it, and touch its status nowhere else. */
  predicate Marked(ops: seq<Op>, number: nat, final: RunStatus) {
    && |ops| > 1 && ops[0] == UpdateRun(Running, number) && ops[|ops| - 1] == UpdateRun(final, number)
    && (forall i :: 0 < i < |ops| - 1 ==> !ops[i].UpdateRun?)
    && (forall i :: 0 <= i < |ops| ==> !ops[i].RecordFailure?)
  }

  lemma {:induction false} AfterOps(t: Rows, ops: seq<Op>, number: nat, final: RunStatus, n: nat)
    requires Marked(ops, number, final) && n <= |ops|
    ensures var r := ApplyAll(t, ops[..n]);
            && r.attemptCount == (if n == 0 then t.attemptCount else number)
            && r.status == (if n == 0 then t.status else if n < |ops| then Running else final)
            && r.failures == t.failures
  {
    if n > 0 {
      AfterOps(t, ops, number, final, n - 1);
      assert ops[..n][..n - 1] == ops[..n - 1];
    }
  }

  lemma MainPathMarks(a: Attempt)
    ensures Marked(MainOps(a), a.number, if a.aggregate == Block then BlockedRun else Succeeded)
  {
    OpsInPlace(a);
  }

  /** An attempt whose process dies under way leaves the run RUNNING under its number: with the draft once it
      got that far, and with its approval once it asked. */
  lemma DeadAttemptLeaves(t: Rows, a: Attempt)
    requires AtMostOnce(t) && t.status != Succeeded && t.status != BlockedRun && a.fault.Dies?
    requires TakesEffect(a.fault, 0) && !TakesEffect(a.fault, |MainOps(a)| - 1)
    ensures var r := Process(t, a);
            && r.status == Running && r.attemptCount == a.number && r.failures == t.failures
            && (r.drafts == if Writes(a) then [DraftOf(a)] else t.drafts)
            && (r.approvals == if t.approvals == [] && Asks(a) then [Approval(0, a.body)] else t.approvals)
  {
    MainPathMarks(a);
    AfterOps(t, MainOps(a), a.number, if a.aggregate == Block then BlockedRun else Succeeded, EffectiveCount(MainOps(a), a.fault));
    AttemptDrafts(t, a);
    AttemptApprovals(t, a);
  }

  /** An attempt without faults of a run that has not succeeded or been blocked numbers and finishes it, and
      opens no failure. */
  lemma CleanAttemptLeaves(t: Rows, a: Attempt)
    requires AtMostOnce(t) && t.status != Succeeded && t.status != BlockedRun && a.fault == NoFault
    ensures var r := Process(t, a);
            && r.status == (if a.aggregate == Block then BlockedRun else Succeeded)
            && r.attemptCount == a.number && r.failures == t.failures && r.drafts == [DraftOf(a)]
            && (r.approvals == if t.approvals == [] && Asks(a) then [Approval(0, a.body)] else t.approvals)
  {
    assert MainOps(a)[..|MainOps(a)|] == MainOps(a);
    MainPathMarks(a);
    AfterOps(t, MainOps(a), a.number, if a.aggregate == Block then BlockedRun else Succeeded, |MainOps(a)|);
    AttemptDrafts(t, a);
    AttemptApprovals(t, a);
  }

  // Events.

  /** The decision events, and when the source appends each. */
  predicate DecisionEvent(e: EventType) {
    e.GuardrailBlocked? || e.GuardrailRequiresApproval? || e.HumanApprovalCreated? || e.GuardrailCheckPassed? || e.DraftAutoApproved?
  }

  predicate CallsFor(e: EventType, a: Attempt) {
    && (e.GuardrailBlocked? ==> a.aggregate == Block)
    && (e.GuardrailRequiresApproval? ==> a.aggregate == RequireApproval)
    && (e.HumanApprovalCreated? ==> a.aggregate == Allow && a.requireHuman)
    && (e.GuardrailCheckPassed? || e.DraftAutoApproved? ==> a.aggregate == Allow && !a.requireHuman)
  }

  /** The decision events of an attempt that gets through its main path. */
  predicate Tells(events: seq<EventType>, a: Attempt) {
    && (a.aggregate == Block ==> GuardrailBlocked in events)
    && (a.aggregate == RequireApproval ==> GuardrailRequiresApproval in events)
    && (a.aggregate == Allow && a.requireHuman ==> HumanApprovalCreated in events)
    && (a.aggregate == Allow && !a.requireHuman ==> GuardrailCheckPassed in events && DraftAutoApproved in events)
  }

  lemma DecisionOpsRun(a: Attempt, i: nat)
    requires i < |DecisionOps(a)|
    ensures DecisionOps(a)[i] in MainOps(a)
  {
    OpsInPlace(a);
    assert MainOps(a)[8 + |a.flagged| + i] == DecisionOps(a)[i];
  }

  lemma FlagsRun(a: Attempt, i: nat)
    requires i < |a.flagged|
    ensures Append(Repeatable(a.flagged[i])) in MainOps(a)
  {
    OpsInPlace(a);
    assert MainOps(a)[6 + i] == Append(Repeatable(a.flagged[i]));
  }

  lemma MainPathTells(t: Rows, a: Attempt)
    ensures Tells(ApplyAll(t, MainOps(a)).events, a)
    ensures forall i :: 0 <= i < |a.flagged| ==> Repeatable(a.flagged[i]) in ApplyAll(t, MainOps(a)).events
  {
    EventsStay(t, MainOps(a));
    DecisionOpsRun(a, 0);
    DecisionOpsRun(a, |DecisionOps(a)| - 1);
    forall i | 0 <= i < |a.flagged| ensures Append(Repeatable(a.flagged[i])) in MainOps(a) {
      FlagsRun(a, i);
    }
  }

  predicate AppendsEvent(op: Op, e: EventType) {
    (op.AppendOnce? || op.Append?) && op.event == e
  }

  lemma {:induction false} EventsComeFromOps(t: Rows, ops: seq<Op>, e: EventType)
    requires e in ApplyAll(t, ops).events && e !in t.events
    ensures exists op :: op in ops && AppendsEvent(op, e)
  {
    var init, last := ops[..|ops| - 1], ops[|ops| - 1];
    assert ops == init + [last];
    if e in ApplyAll(t, init).events {
      EventsComeFromOps(t, init, e);
      var op :| op in init && AppendsEvent(op, e);
      assert op in ops;
    } else {
      assert last in ops;
    }
  }

  lemma MainOpsCall(a: Attempt, op: Op, e: EventType)
    requires op in MainOps(a) && AppendsEvent(op, e) && DecisionEvent(e)
    ensures CallsFor(e, a)
  {
    MainOpsParts(a);
    if op in Middle(a) {
      assert op in DecisionOps(a);
    }
  }

  lemma CatchOpsCall(a: Attempt, d: Disposition, op: Op, e: EventType)
    requires op in CatchOps(a, d) && AppendsEvent(op, e)
    ensures !DecisionEvent(e)
  {
    assert e == RunFailed;
  }

  lemma MainPathEventsFrom(t: Rows, a: Attempt, e: EventType)
    requires DecisionEvent(e) && e !in t.events && e in ApplyAll(t, Effective(MainOps(a), a.fault)).events
    ensures CallsFor(e, a)
  {
    var main := Effective(MainOps(a), a.fault);
    EventsComeFromOps(t, main, e);
    var op :| op in main && AppendsEvent(op, e);
    assert op in MainOps(a);
    MainOpsCall(a, op, e);
  }

  lemma CatchAddsNone(t: Rows, a: Attempt, e: EventType)
    requires DecisionEvent(e) && e !in t.events && a.fault.Throws?
    ensures e !in ApplyAll(t, Effective(CatchOps(a, a.fault.disposition), a.catchFault)).events
  {
    var c := CatchOps(a, a.fault.disposition);
    var done := Effective(c, a.catchFault);
    if e in ApplyAll(t, done).events {
      EventsComeFromOps(t, done, e);
      var op :| op in done && AppendsEvent(op, e);
      assert op in c;
      CatchOpsCall(a, a.fault.disposition, op, e);
    }
  }

  lemma AttemptEvents(t: Rows, a: Attempt, e: EventType)
    requires DecisionEvent(e) && e in Process(t, a).events && e !in t.events
    ensures CallsFor(e, a)
  {
    var after := ApplyAll(t, Effective(MainOps(a), a.fault));
    if e in after.events {
      MainPathEventsFrom(t, a, e);
    } else if Hits(a.fault, MainOps(a)) && a.fault.Throws? {
      CatchAddsNone(after, a, e);
    }
  }

  /** After any attempts, a decision event is there only if some attempt decided so. */
  lemma {:induction false} DecisionEventsAreExplained(attempts: seq<Attempt>, e: EventType) returns (k: nat)
    requires DecisionEvent(e) && e in ProcessAll(FRESH, attempts).events
    ensures k < |attempts| && CallsFor(e, attempts[k])
  {
    var earlier, last := attempts[..|attempts| - 1], attempts[|attempts| - 1];
    if e in ProcessAll(FRESH, earlier).events {
      k := DecisionEventsAreExplained(earlier, e);
    } else {
      k := |earlier|;
      AttemptEvents(ProcessAll(FRESH, earlier), last, e);
    }
  }

  // Finished runs.

  lemma SuccessTells(t: Rows, a: Attempt)
    requires !TerminalRun(t.status) && Process(t, a).status == Succeeded
    ensures Tells(Process(t, a).events, a)
  {
    SuccessTakesTheWholePath(t, a);
    MainPathTells(t, a);
    EventsAfterCatch(t, a);
  }

  lemma EventsAfterCatch(t: Rows, a: Attempt)
    requires !TerminalRun(t.status) && Effective(MainOps(a), a.fault) == MainOps(a)
    ensures forall e :: e in ApplyAll(t, MainOps(a)).events ==> e in Process(t, a).events
  {
    if Hits(a.fault, MainOps(a)) && a.fault.Throws? {
      EventsStay(ApplyAll(t, MainOps(a)), Effective(CatchOps(a, a.fault.disposition), a.catchFault));
    }
  }

  /** A succeeded run: the attempt that finished it was not blocked, its draft is APPROVED exactly when
      nothing stood against it and no person was to be asked, and otherwise waits with an approval for it;
      the events tell which. */
  lemma {:induction false} SucceededRunIsSettled(attempts: seq<Attempt>) returns (k: nat)
    requires ProcessAll(FRESH, attempts).status == Succeeded
    ensures k < |attempts| && attempts[k].aggregate != Block
    ensures ProcessAll(FRESH, attempts[..k + 1]) == ProcessAll(FRESH, attempts)
    ensures var t, a := ProcessAll(FRESH, attempts), attempts[k];
            && t.drafts == [Draft(a.body, if a.aggregate == Allow && !a.requireHuman then Approved else PendingApproval)]
            && (!(a.aggregate == Allow && !a.requireHuman) ==> HasApproval(t.approvals, 0))
            && Tells(t.events, a)
  {
    k := SucceededRunMatches(attempts);
    ProcessLast(attempts, k);
    SuccessTells(ProcessAll(FRESH, attempts[..k]), attempts[k]);
  }

  /** Only the last write of a blocked main path, or the catch block of a policy error, blocks a run. */
  lemma BlockComesFrom(t: Rows, a: Attempt)
    requires !TerminalRun(t.status) && Process(t, a).status == BlockedRun
    ensures || (a.aggregate == Block && Effective(MainOps(a), a.fault) == MainOps(a))
            || (a.fault.Throws? && a.fault.disposition == BlockedByPolicy && TakesEffect(a.catchFault, 0))
  {
    var ops := MainOps(a);
    var n := EffectiveCount(ops, a.fault);
    if n < |ops| || a.aggregate != Block {
      forall op | op in ops[..n] ensures !(op.UpdateRun? && op.status == BlockedRun) {
        var i :| 0 <= i < n && ops[i] == op;
        OnlyTheLastBlocks(a, i);
      }
      StatusComesFromAWrite(t, ops[..n], BlockedRun);
      CatchBlocks(ApplyAll(t, ops[..n]), a);
    }
  }

  lemma OnlyTheLastBlocks(a: Attempt, i: nat)
    requires i < |MainOps(a)| && (i < |MainOps(a)| - 1 || a.aggregate != Block)
    ensures !(MainOps(a)[i].UpdateRun? && MainOps(a)[i].status == BlockedRun)
  {
    MainOpsParts(a);
  }

  lemma CatchBlocks(t: Rows, a: Attempt)
    requires t.status != BlockedRun && a.fault.Throws?
    requires ApplyAll(t, Effective(CatchOps(a, a.fault.disposition), a.catchFault)).status == BlockedRun
    ensures a.fault.disposition == BlockedByPolicy && TakesEffect(a.catchFault, 0)
  {
    var d := a.fault.disposition;
    CatchStatus(t, a, d, EffectiveCount(CatchOps(a, d), a.catchFault));
  }

  /** A blocked run: either its guardrails blocked it, and it leaves a plain draft and the event that says so,
      or a policy error did. */
  lemma {:induction false} BlockedRunIsSettled(attempts: seq<Attempt>) returns (k: nat)
    requires ProcessAll(FRESH, attempts).status == BlockedRun
    ensures k < |attempts| && ProcessAll(FRESH, attempts[..k + 1]) == ProcessAll(FRESH, attempts)
    ensures var t, a := ProcessAll(FRESH, attempts), attempts[k];
            || (a.aggregate == Block && t.drafts == [Draft(a.body, DraftOnly)] && GuardrailBlocked in t.events)
            || (a.fault.Throws? && a.fault.disposition == BlockedByPolicy && TakesEffect(a.catchFault, 0))
  {
    k := FinishingAttempt(attempts);
    ProcessLast(attempts, k);
    var t, a := ProcessAll(FRESH, attempts[..k]), attempts[k];
    BlockComesFrom(t, a);
    if a.aggregate == Block && Effective(MainOps(a), a.fault) == MainOps(a) {
      RunLeavesAtMostOne(attempts[..k]);
      MainPathTells(t, a);
      EventsAfterCatch(t, a);
      WholePathWrites(a);
      AttemptDrafts(t, a);
    }
  }

  lemma WholePathWrites(a: Attempt)
    requires Effective(MainOps(a), a.fault) == MainOps(a)
    ensures Writes(a)
  {
    MainPathWrites(a);
    var n := EffectiveCount(MainOps(a), a.fault);
    assert |MainOps(a)[..n]| == |MainOps(a)|;
  }
}
