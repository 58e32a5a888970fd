/** What decisions and sends do to a draft's status, in plain statuses, and which drafts a person can send. */
module ApprovalOutcomes {
  import opened Prelude
  import opened ApprovedText

  // One decision.

  /** A decision is taken exactly of a pending approval, unless it approves a draft that must not go out: one
      of a blocked run, or one with nobody to send it to. */
  lemma DecisionCommitsExactly(d: Desk, id: nat, seen: Approval, approve: bool, runBlocked: bool, to: Destination, maxAttempts: nat)
    requires seen.draft.Some? ==> seen.draft.value < |d.drafts|
    ensures Decided(d, id, seen, approve, runBlocked, to, maxAttempts).Some? <==>
              && id < |d.approvals| && d.approvals[id].status == Pending
              && !(approve && seen.draft.Some? &&
                   ((runBlocked && d.drafts[seen.draft.value].agentRun.Some?) || to == NoRecipient))
  {
  }

  /** A decision that is taken marks its approval; declining rejects the linked draft and leaves its text,
      approving gives it the proposed text and the status APPROVED; nothing else about drafts and approvals
      changes, and a decline queues nothing. */
  lemma DecisionLeaves(d: Desk, id: nat, seen: Approval, approve: bool, runBlocked: bool, to: Destination, maxAttempts: nat)
    requires seen.draft.Some? ==> seen.draft.value < |d.drafts|
    requires Decided(d, id, seen, approve, runBlocked, to, maxAttempts).Some?
    ensures var after := Decided(d, id, seen, approve, runBlocked, to, maxAttempts).value;
            && id < |d.approvals| == |after.approvals| && |after.drafts| == |d.drafts|
            && after.approvals[id] == Approval(d.approvals[id].draft, d.approvals[id].proposed, if approve then Accepted else Declined)
            && (forall j :: 0 <= j < |d.approvals| && j != id ==> after.approvals[j] == d.approvals[j])
            && (forall j :: 0 <= j < |d.drafts| && Some(j as nat) != seen.draft ==> after.drafts[j] == d.drafts[j])
            && (seen.draft.Some? ==>
                  var k := seen.draft.value;
                  && after.drafts[k].agentRun == d.drafts[k].agentRun
                  && (!approve ==> after.drafts[k].status == Rejected && after.drafts[k].body == d.drafts[k].body)
                  && (approve ==>
                        && after.drafts[k].status == Approved
                        && after.drafts[k].body == if seen.proposed.Some? then seen.proposed.value else d.drafts[k].body))
            && after.messages == d.messages
    ensures var after := Decided(d, id, seen, approve, runBlocked, to, maxAttempts).value;
            if approve && seen.draft.Some? && to == Recipient && forall o :: o in d.outbounds ==> o.draft != seen.draft.value then
              && |after.outbounds| == |d.outbounds| + 1 && after.outbounds[..|d.outbounds|] == d.outbounds
              && after.outbounds[|d.outbounds|].draft == seen.draft.value
              && TextOf(after.outbounds[|d.outbounds|]) == after.drafts[seen.draft.value].body
            else after.outbounds == d.outbounds
  {
    if seen.draft.Some? {
      assert FindOutbound(d.outbounds, seen.draft.value).None? <==> forall o :: o in d.outbounds ==> o.draft != seen.draft.value;
    }
  }

  /** A retried agent run rewrites the text and the status of its own draft, whatever that status was, and
      asks once for each draft; an edit changes a text, and a send a status, and only of the draft named. */
  lemma DeskWrites(d: Desk, run: nat, k: nat, text: string, status: DraftStatus)
    requires k < |d.drafts|
    ensures var after := AgentDrafted(d, run, text, status);
            match FindRunDraft(d.drafts, run)
            case None => after.drafts == d.drafts + [Draft(text, status, Some(run))]
            case Some(i) => after.drafts == d.drafts[..i] + [Draft(text, status, Some(run))] + d.drafts[i + 1..]
    ensures AgentAsked(d, k, text).approvals ==
              if exists a :: a in d.approvals && a.draft == Some(k) then d.approvals
              else d.approvals + [Approval(Some(k), Some(text), Pending)]
    ensures Edited(d, k, text).drafts == d.drafts[..k] + [Draft(text, d.drafts[k].status, d.drafts[k].agentRun)] + d.drafts[k + 1..]
    ensures SentDraft(d, k, text).Some? <==> d.drafts[k].status != Sent
    ensures SentDraft(d, k, text).Some? ==>
              && SentDraft(d, k, text).value.messages == d.messages + [text]
              && SentDraft(d, k, text).value.drafts == d.drafts[..k] + [Draft(d.drafts[k].body, Sent, d.drafts[k].agentRun)] + d.drafts[k + 1..]
  {
    if HasApproval(d.approvals, k) {
      var i :| 0 <= i < |d.approvals| && d.approvals[i].draft == Some(k);
      assert d.approvals[i] in d.approvals;
    }
  }

  /** A draft opens for editing until it is sent, and a person's own draft is a plain one of no run. */
  lemma PeopleWrite(s: State, who: nat, i: nat, body: string)
    ensures var after := Step(s, OpenEditor(who, i));
            if i < |s.desk.drafts| && s.desk.drafts[i].status != Sent then after == s.(people := s.people[who := Editing(i)])
            else after == s
    ensures Step(s, ManualDraft(body)).desk.drafts == s.desk.drafts + [Draft(body, DraftOnly, None)]
  {
  }

  /** No run has two drafts. */
  ghost predicate OneDraftEach(drafts: seq<Draft>) {
    forall i, j :: 0 <= i < j < |drafts| && drafts[i].agentRun.Some? ==> drafts[i].agentRun != drafts[j].agentRun
  }

  lemma StepKeepsOneDraftEach(s: State, a: Action)
    requires OneDraftEach(s.desk.drafts)
    ensures OneDraftEach(Step(s, a).desk.drafts)
  {
    if a.Decide? && a.who in s.people && s.people[a.who].Deciding? {
      var p := s.people[a.who];
      if p.seen.draft.Some? ==> p.seen.draft.value < |s.desk.drafts| {
        if Decided(s.desk, p.id, p.seen, a.approve, a.runBlocked, a.to, a.maxAttempts).Some? {
          DecisionLeaves(s.desk, p.id, p.seen, a.approve, a.runBlocked, a.to, a.maxAttempts);
        }
      }
    }
  }

  /** Over every interleaving, an agent run has at most one draft. */
  lemma {:induction false} RunsHaveOneDraft(s: State, actions: seq<Action>)
    requires OneDraftEach(s.desk.drafts)
    ensures OneDraftEach(Run(s, actions).desk.drafts)
    decreases |actions|
  {
    if actions != [] {
      StepKeepsOneDraftEach(s, actions[0]);
      RunsHaveOneDraft(Step(s, actions[0]), actions[1..]);
    }
  }

  // Who makes a draft APPROVED.

  /** An approving decision on the draft, or an agent draft written with that status. */
  predicate Approves(s: State, a: Action, i: nat) {
    || (a.Decide? && a.approve && a.who in s.people && s.people[a.who].Deciding? && s.people[a.who].seen.draft == Some(i))
    || (a.AgentDraft? && a.status == Approved
        && match FindRunDraft(s.desk.drafts, a.run) case Some(k) => k == i case None => i == |s.desk.drafts|)
  }

  predicate IsApproved(s: State, i: nat) {
    i < |s.desk.drafts| && s.desk.drafts[i].status == Approved
  }

  lemma {:induction false} ApprovedOnlyBy(s: State, a: Action, i: nat)
    requires IsApproved(Step(s, a), i) && !IsApproved(s, i)
    ensures Approves(s, a, i)
  {
    if a.Decide? && a.who in s.people && s.people[a.who].Deciding? {
      var p := s.people[a.who];
      if p.seen.draft.Some? ==> p.seen.draft.value < |s.desk.drafts| {
        if Decided(s.desk, p.id, p.seen, a.approve, a.runBlocked, a.to, a.maxAttempts).Some? {
          DecisionLeaves(s.desk, p.id, p.seen, a.approve, a.runBlocked, a.to, a.maxAttempts);
        }
      }
    }
  }

  lemma DraftsStay(s: State, a: Action)
    ensures |s.desk.drafts| <= |Step(s, a).desk.drafts|
  {
  }

  /** No step of the run approves draft `i`. */
  predicate NeverApproved(s: State, actions: seq<Action>, i: nat)
    decreases |actions|
  {
    actions == [] || (!Approves(s, actions[0], i) && NeverApproved(Step(s, actions[0]), actions[1..], i))
  }

  lemma {:induction false} StaysUnapproved(s: State, actions: seq<Action>, i: nat)
    requires i < |s.desk.drafts| && !IsApproved(s, i) && NeverApproved(s, actions, i)
    ensures i < |Run(s, actions).desk.drafts| && !IsApproved(Run(s, actions), i)
    decreases |actions|
  {
    if actions != [] {
      DraftsStay(s, actions[0]);
      if IsApproved(Step(s, actions[0]), i) {
        ApprovedOnlyBy(s, actions[0], i);
      }
      StaysUnapproved(Step(s, actions[0]), actions[1..], i);
    }
  }

  /** A declined draft cannot be sent in an organization that asks for approval, until it is approved anew:
      whatever else happens after the decline, the check before a send refuses it. */
  lemma DeclinedDraftsAreNotSendable(s: State, who: nat, runBlocked: bool, to: Destination, maxAttempts: nat,
                                     actions: seq<Action>, i: nat, sender: nat)
    requires who in s.people && s.people[who].Deciding? && s.people[who].seen.draft == Some(i) && i < |s.desk.drafts|
    requires s.people[who].id < |s.desk.approvals| && s.desk.approvals[s.people[who].id].status == Pending
    requires NeverApproved(Step(s, Decide(who, false, runBlocked, to, maxAttempts)), actions, i)
    ensures var declined := Step(s, Decide(who, false, runBlocked, to, maxAttempts));
            && declined.desk.drafts[i].status == Rejected && declined.desk.drafts[i].body == s.desk.drafts[i].body
            && Step(Run(declined, actions), CheckSend(sender, i, true)) == Run(declined, actions)
  {
    var p := s.people[who];
    DecisionCommitsExactly(s.desk, p.id, p.seen, false, runBlocked, to, maxAttempts);
    DecisionLeaves(s.desk, p.id, p.seen, false, runBlocked, to, maxAttempts);
    StaysUnapproved(Step(s, Decide(who, false, runBlocked, to, maxAttempts)), actions, i);
  }

  // What is sent by hand was approved.

  /** A draft is admitted to a send exactly when it was not sent and, where a person has to approve, is APPROVED;
      what is then sent is the text it had at that moment. */
  lemma ChecksAdmitExactly(s: State, who: nat, i: nat, requireHuman: bool)
    ensures var after := Step(s, CheckSend(who, i, requireHuman));
            var admitted := i < |s.desk.drafts| && s.desk.drafts[i].status != Sent
                            && (requireHuman ==> s.desk.drafts[i].status == Approved);
            && (admitted ==> who in after.people && after.people[who] == Sending(i, s.desk.drafts[i].body))
            && (!admitted ==> after == s)
            && after.desk == s.desk
  {
  }

  /** The draft had that text while it was APPROVED. */
  predicate ApprovedWith(s: State, i: nat, text: string) {
    IsApproved(s, i) && s.desk.drafts[i].body == text
  }

  predicate ApprovedSomeTime(actions: seq<Action>, i: nat, text: string) {
    exists n :: 0 <= n <= |actions| && ApprovedBy(actions, n, i, text)
  }

  predicate ApprovedBy(actions: seq<Action>, n: nat, i: nat, text: string)
    requires n <= |actions|
  {
    ApprovedWith(Run(START, actions[..n]), i, text)
  }

  lemma {:induction false} RunSnoc(s: State, actions: seq<Action>, a: Action)
    ensures Run(s, actions + [a]) == Step(Run(s, actions), a)
    decreases |actions|
  {
    if actions == [] {
      assert [a][1..] == [];
    } else {
      assert (actions + [a])[1..] == actions[1..] + [a];
      RunSnoc(Step(s, actions[0]), actions[1..], a);
    }
  }

  lemma {:induction false} ApprovedEarlier(actions: seq<Action>, a: Action, i: nat, text: string)
    requires ApprovedSomeTime(actions, i, text)
    ensures ApprovedSomeTime(actions + [a], i, text)
  {
    var n :| 0 <= n <= |actions| && ApprovedBy(actions, n, i, text);
    assert (actions + [a])[..n] == actions[..n];
    assert ApprovedBy(actions + [a], n, i, text);
  }

  /** Every text a person has checked for sending was the text of its draft while that was APPROVED, and so was
      every message sent. */
  ghost predicate SendsApproved(actions: seq<Action>, s: State) {
    && (forall who :: who in s.people && s.people[who].Sending? ==>
          ApprovedSomeTime(actions, s.people[who].draft, s.people[who].body))
    && (forall m :: m in s.desk.messages ==> exists i: nat :: ApprovedSomeTime(actions, i, m))
  }

  lemma CheckedOrBefore(s: State, a: Action, who: nat)
    requires a.CheckSend? ==> a.requireHuman
    requires who in Step(s, a).people && Step(s, a).people[who].Sending?
    ensures var p := Step(s, a).people[who];
            (who in s.people && s.people[who] == p) || ApprovedWith(s, p.draft, p.body)
  {
  }

  lemma SentOrBefore(s: State, a: Action, m: string)
    requires m in Step(s, a).desk.messages && m !in s.desk.messages
    ensures a.Send? && a.who in s.people && s.people[a.who].Sending? && s.people[a.who].body == m
  {
    if a.Decide? && a.who in s.people && s.people[a.who].Deciding? {
      var p := s.people[a.who];
      if p.seen.draft.Some? ==> p.seen.draft.value < |s.desk.drafts| {
        if Decided(s.desk, p.id, p.seen, a.approve, a.runBlocked, a.to, a.maxAttempts).Some? {
          DecisionLeaves(s.desk, p.id, p.seen, a.approve, a.runBlocked, a.to, a.maxAttempts);
        }
      }
    }
  }

  lemma SendsStayApproved(actions: seq<Action>, s: State, a: Action)
    requires SendsApproved(actions, s) && s == Run(START, actions) && (a.CheckSend? ==> a.requireHuman)
    ensures SendsApproved(actions + [a], Step(s, a))
  {
    var after := Step(s, a);
    forall who | who in after.people && after.people[who].Sending?
      ensures ApprovedSomeTime(actions + [a], after.people[who].draft, after.people[who].body)
    {
      var p := after.people[who];
      CheckedOrBefore(s, a, who);
      if !(who in s.people && s.people[who] == p) {
        assert actions[..|actions|] == actions;
        assert ApprovedBy(actions, |actions|, p.draft, p.body);
      }
      ApprovedEarlier(actions, a, p.draft, p.body);
    }
    forall m | m in after.desk.messages ensures exists i: nat :: ApprovedSomeTime(actions + [a], i, m) {
      if m in s.desk.messages {
        var i: nat :| ApprovedSomeTime(actions, i, m);
        ApprovedEarlier(actions, a, i, m);
      } else {
        SentOrBefore(s, a, m);
        ApprovedEarlier(actions, a, s.people[a.who].draft, m);
      }
    }
  }

  predicate AlwaysAsks(actions: seq<Action>) {
    forall a :: a in actions && a.CheckSend? ==> a.requireHuman
  }

  lemma NothingSentYet()
    ensures SendsApproved([], START)
  {
  }

  lemma OneMoreStep(earlier: seq<Action>, last: Action)
    requires SendsApproved(earlier, Run(START, earlier)) && (last.CheckSend? ==> last.requireHuman)
    ensures SendsApproved(earlier + [last], Run(START, earlier + [last]))
  {
    RunSnoc(START, earlier, last);
    SendsStayApproved(earlier, Run(START, earlier), last);
  }

  lemma {:induction false} SendsAreApproved(actions: seq<Action>)
    requires AlwaysAsks(actions)
    ensures SendsApproved(actions, Run(START, actions))
  {
    if actions == [] {
      NothingSentYet();
    } else {
      var earlier, last := actions[..|actions| - 1], actions[|actions| - 1];
      SendsAreApproved(earlier);
      OneMoreStep(earlier, last);
      assert actions == earlier + [last];
    }
  }

  /** In an organization that asks for approval throughout, every message sent by hand was at some time the
      text of a draft that stood APPROVED, whatever became of the draft between the check and the send. */
  lemma SentMessagesWereApproved(actions: seq<Action>, m: string) returns (n: nat, i: nat)
    requires AlwaysAsks(actions)
    requires m in Run(START, actions).desk.messages
    ensures n <= |actions|
    ensures var d := Run(START, actions[..n]).desk; i < |d.drafts| && d.drafts[i].status == Approved && d.drafts[i].body == m
  {
    SendsAreApproved(actions);
    i :| ApprovedSomeTime(actions, i, m);
    n :| 0 <= n <= |actions| && ApprovedBy(actions, n, i, m);
  }

  /** A send checked before the decline still goes out after it: the send itself only asks that the draft was
      not sent. */
  lemma CheckedSendOutlivesDecline(s: State, who: nat, i: nat)
    requires who in s.people && s.people[who].Sending? && s.people[who].draft == i < |s.desk.drafts|
    requires s.desk.drafts[i].status == Rejected
    ensures var after := Step(s, Send(who)).desk;
            after.messages == s.desk.messages + [s.people[who].body] && after.drafts[i].status == Sent
  {
  }

  /** That state is reached even where every send asks for approval: a retry approves the draft by itself, a
      person checks it for sending, and another declines the approval of the first attempt. */
  lemma CheckedThenDeclinedIsReached(text: string)
    ensures var s := Run(START, [AgentDraft(0, text, PendingApproval), AgentApproval(0, text), AgentDraft(0, text, Approved),
                                 CheckSend(1, 0, true), ReadApproval(2, 0), Decide(2, false, false, Recipient, 1)]);
            && 1 in s.people && s.people[1] == Sending(0, text)
            && |s.desk.drafts| == 1 && s.desk.drafts[0].status == Rejected
  {
    var first := [AgentDraft(0, text, PendingApproval), AgentApproval(0, text), AgentDraft(0, text, Approved)];
    AskedThenApproved(text);
    var s := Run(START, first);
    var a, b, c := CheckSend(1, 0, true), ReadApproval(2, 0), Decide(2, false, false, Recipient, 1);
    RunSnoc(START, first, a);
    RunSnoc(START, first + [a], b);
    RunSnoc(START, first + [a] + [b], c);
    assert first + [a] + [b] + [c] == [first[0], first[1], first[2], a, b, c];
    CheckedThenDeclined(s, text);
  }

  lemma CheckedThenDeclined(s: State, text: string)
    requires s == State(Desk([Draft(text, Approved, Some(0))], [Approval(Some(0), Some(text), Pending)], [], []), map[])
    ensures var after := Step(Step(Step(s, CheckSend(1, 0, true)), ReadApproval(2, 0)), Decide(2, false, false, Recipient, 1));
            1 in after.people && after.people[1] == Sending(0, text) && |after.desk.drafts| == 1 && after.desk.drafts[0].status == Rejected
  {
    var seen := Approval(Some(0), Some(text), Pending);
    var checked := Step(s, CheckSend(1, 0, true));
    assert checked == State(s.desk, map[1 := Sending(0, text)]);
    var both := Step(checked, ReadApproval(2, 0));
    assert both == State(s.desk, map[1 := Sending(0, text), 2 := Deciding(0, seen)]);
    DecisionCommitsExactly(s.desk, 0, seen, false, false, Recipient, 1);
    DecisionLeaves(s.desk, 0, seen, false, false, Recipient, 1);
  }

  lemma AskedThenApproved(text: string)
    ensures Run(START, [AgentDraft(0, text, PendingApproval), AgentApproval(0, text), AgentDraft(0, text, Approved)])
            == State(Desk([Draft(text, Approved, Some(0))], [Approval(Some(0), Some(text), Pending)], [], []), map[])
  {
    var a, b, c := AgentDraft(0, text, PendingApproval), AgentApproval(0, text), AgentDraft(0, text, Approved);
    RunSnoc(START, [], a);
    RunSnoc(START, [a], b);
    RunSnoc(START, [a] + [b], c);
    assert [] + [a] == [a] && [a] + [b] + [c] == [a, b, c];
  }
}
