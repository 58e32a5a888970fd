/** What a customer is sent: agent retries, manual edits, approvals, sends and deliveries interleave over
    the drafts, approvals and outbound messages of one organization. Reading a row and deciding on it are
    separate steps, so a decision may rest on a stale read. Row ids are positions. */
module ApprovedText {
  import opened Prelude
  import OutboundMessages
  import Delivery = DeliveryProtocol

  datatype DraftStatus = DraftOnly | PendingApproval | Approved | Rejected | Sent
  datatype ApprovalStatus = Pending | Accepted | Declined

  /** A draft of an agent run, or of a person. */
  datatype Draft = Draft(body: string, status: DraftStatus, agentRun: Option<nat>)

  datatype Approval = Approval(draft: Option<nat>, proposed: Option<string>, status: ApprovalStatus)

  /** An outbound message, under the idempotency key of its draft, and everything its delivery touches. */
  datatype Outbound = Outbound(draft: nat, delivery: Delivery.State)

  datatype Desk = Desk(drafts: seq<Draft>, approvals: seq<Approval>, outbounds: seq<Outbound>, messages: seq<string>)

  // The writes.

  function FindRunDraft(drafts: seq<Draft>, run: nat): (r: Option<nat>)
    ensures r.Some? ==> r.value < |drafts| && drafts[r.value].agentRun == Some(run)
    ensures r.None? ==> forall i :: 0 <= i < |drafts| ==> drafts[i].agentRun != Some(run)
  {
    if drafts == [] then None
    else
      match FindRunDraft(drafts[..|drafts| - 1], run)
      case Some(i) => Some(i)
      case None => if drafts[|drafts| - 1].agentRun == Some(run) then Some(|drafts| - 1) else None
  }

  predicate HasApproval(approvals: seq<Approval>, draft: nat) {
    exists i :: 0 <= i < |approvals| && approvals[i].draft == Some(draft)
  }

  function FindOutbound(outbounds: seq<Outbound>, draft: nat): (r: Option<nat>)
    ensures r.Some? ==> r.value < |outbounds| && outbounds[r.value].draft == draft
    ensures r.None? ==> forall i :: 0 <= i < |outbounds| ==> outbounds[i].draft != draft
  {
    if outbounds == [] then None
    else if outbounds[|outbounds| - 1].draft == draft then Some(|outbounds| - 1)
    else FindOutbound(outbounds[..|outbounds| - 1], draft)
  }

  /** The worker's `ensureRunDraft`. */
  function AgentDrafted(d: Desk, run: nat, body: string, status: DraftStatus): Desk {
    match FindRunDraft(d.drafts, run)
    case Some(i) => d.(drafts := d.drafts[i := Draft(body, status, Some(run))])
    case None => d.(drafts := d.drafts + [Draft(body, status, Some(run))])
  }

  /** The worker's `ensureApproval`. */
  function AgentAsked(d: Desk, draft: nat, proposed: string): Desk {
    if HasApproval(d.approvals, draft) then d
    else d.(approvals := d.approvals + [Approval(Some(draft), Some(proposed), Pending)])
  }

  /** What `createOutboundForApprovedDraft` finds to send to. */
  datatype Destination = NoOpenConversation | NoRecipient | Recipient

  /** `createOutboundForApprovedDraft` on a draft of status APPROVED; `None` is a thrown error. */
  function Queue(d: Desk, draft: nat, runBlocked: bool, to: Destination, maxAttempts: nat): Option<Desk>
    requires draft < |d.drafts|
  {
    if runBlocked && d.drafts[draft].agentRun.Some? then None
    else
      match to
      case NoOpenConversation => Some(d)
      case NoRecipient => None
      case Recipient =>
        if FindOutbound(d.outbounds, draft).Some? then Some(d)
        else Some(d.(outbounds := d.outbounds + [Outbound(draft, Delivery.Initial(d.drafts[draft].body, maxAttempts))]))
  }

  /** `updateApproval`, deciding the approval `id` that was read as `seen`: a thrown error rolls everything back. */
  function Decided(d: Desk, id: nat, seen: Approval, approve: bool, runBlocked: bool, to: Destination, maxAttempts: nat): (r: Option<Desk>)
    requires seen.draft.Some? ==> seen.draft.value < |d.drafts|
  {
    if id >= |d.approvals| || d.approvals[id].status != Pending then None
    else
      var marked := d.(approvals := d.approvals[id := d.approvals[id].(status := if approve then Accepted else Declined)]);
      if seen.draft.None? then Some(marked)
      else
        var draft := d.drafts[seen.draft.value];
        if approve then
          var body := if seen.proposed.Some? then seen.proposed.value else draft.body;
          Queue(marked.(drafts := d.drafts[seen.draft.value := draft.(status := Approved, body := body)]),
                seen.draft.value, runBlocked, to, maxAttempts)
        else Some(marked.(drafts := d.drafts[seen.draft.value := draft.(status := Rejected)]))
  }

  /** `sendDraft` after its checks, which read the draft's text as `seen`. */
  function SentDraft(d: Desk, draft: nat, seen: string): Option<Desk> {
    if draft >= |d.drafts| || d.drafts[draft].status == Sent then None
    else Some(d.(drafts := d.drafts[draft := d.drafts[draft].(status := Sent)], messages := d.messages + [seen]))
  }

  function Edited(d: Desk, draft: nat, body: string): Desk {
    if draft >= |d.drafts| then d else d.(drafts := d.drafts[draft := d.drafts[draft].(body := body)])
  }

  // The interleaving.

  /** What a person has read and not acted on yet. */
  datatype Intent = Editing(draft: nat) | Sending(draft: nat, body: string) | Deciding(id: nat, seen: Approval)

  datatype State = State(desk: Desk, people: map<nat, Intent>)

  datatype Action =
    | AgentDraft(run: nat, body: string, status: DraftStatus)
    | AgentApproval(draft: nat, proposed: string)
    | ManualDraft(body: string)
    | ManualApproval(suggested: Option<string>)
    | OpenEditor(who: nat, draft: nat)
    | SaveEdit(who: nat, body: string)
    | CheckSend(who: nat, draft: nat, requireHuman: bool)
    | Send(who: nat)
    | ReadApproval(who: nat, id: nat)
    | Decide(who: nat, approve: bool, runBlocked: bool, to: Destination, maxAttempts: nat)
    | Deliver(outbound: nat, step: Delivery.Action)     // workers, replays, cancels and callbacks

  const START := State(Desk([], [], [], []), map[])

  function Step(s: State, a: Action): State {
    var d := s.desk;
    match a
    case AgentDraft(run, body, status) => s.(desk := AgentDrafted(d, run, body, status))
    case AgentApproval(draft, proposed) =>
      if draft < |d.drafts| then s.(desk := AgentAsked(d, draft, proposed)) else s
    case ManualDraft(body) => s.(desk := d.(drafts := d.drafts + [Draft(body, DraftOnly, None)]))
    case ManualApproval(suggested) => s.(desk := d.(approvals := d.approvals + [Approval(None, suggested, Pending)]))
    case OpenEditor(who, draft) =>
      if draft < |d.drafts| && d.drafts[draft].status != Sent then s.(people := s.people[who := Editing(draft)]) else s
    case SaveEdit(who, body) =>
      if who in s.people && s.people[who].Editing?
      then State(Edited(d, s.people[who].draft, body), s.people - {who}) else s
    case CheckSend(who, draft, requireHuman) =>
      if draft < |d.drafts| && d.drafts[draft].status != Sent && (requireHuman ==> d.drafts[draft].status == Approved)
      then s.(people := s.people[who := Sending(draft, d.drafts[draft].body)]) else s
    case Send(who) =>
      if who in s.people && s.people[who].Sending? then
        match SentDraft(d, s.people[who].draft, s.people[who].body)
        case Some(after) => State(after, s.people - {who})
        case None => s
      else s
    case ReadApproval(who, id) =>
      if id < |d.approvals| then s.(people := s.people[who := Deciding(id, d.approvals[id])]) else s
    case Decide(who, approve, runBlocked, to, maxAttempts) =>
      if who in s.people && s.people[who].Deciding? then
        var p := s.people[who];
        if p.seen.draft.Some? && p.seen.draft.value >= |d.drafts| then s
        else
          match Decided(d, p.id, p.seen, approve, runBlocked, to, maxAttempts)
          case Some(after) => State(after, s.people - {who})
          case None => s
      else s
    case Deliver(o, step) =>
      if o < |d.outbounds|
      then s.(desk := d.(outbounds := d.outbounds[o := d.outbounds[o].(delivery := Delivery.Step(d.outbounds[o].delivery, step))]))
      else s
  }

  function Run(s: State, actions: seq<Action>): State
    decreases |actions|
  {
    if actions == [] then s else Run(Step(s, actions[0]), actions[1..])
  }

  // Approved text.

  predicate SameBut(now: Approval, seen: Approval) {
    now.draft == seen.draft && now.proposed == seen.proposed
  }

  ghost predicate Backed(approvals: seq<Approval>, draft: nat, text: string) {
    exists i :: 0 <= i < |approvals| && approvals[i] == Approval(Some(draft), Some(text), Accepted)
  }

  ghost predicate ApprovalsSound(approvals: seq<Approval>, draftCount: nat) {
    && (forall i :: 0 <= i < |approvals| && approvals[i].draft.Some? ==>
          approvals[i].draft.value < draftCount && approvals[i].proposed.Some?)
    && (forall i, j :: 0 <= i < j < |approvals| && approvals[i].draft.Some? ==> approvals[i].draft != approvals[j].draft)
  }

  /** One message for each draft, carrying, through the whole of its delivery, a text approved for it. */
  ghost predicate OutboundsSound(d: Desk) {
    && (forall i, j :: 0 <= i < j < |d.outbounds| ==> d.outbounds[i].draft != d.outbounds[j].draft)
    && (forall i :: 0 <= i < |d.outbounds| ==>
          && d.outbounds[i].draft < |d.drafts|
          && Delivery.Sound(d.outbounds[i].delivery, TextOf(d.outbounds[i]))
          && Backed(d.approvals, d.outbounds[i].draft, TextOf(d.outbounds[i])))
  }

  function TextOf(o: Outbound): string {
    o.delivery.tables.row.textBody
  }

  ghost predicate PeopleSound(people: map<nat, Intent>, approvals: seq<Approval>) {
    forall who :: who in people && people[who].Deciding? ==>
      people[who].id < |approvals| && SameBut(approvals[people[who].id], people[who].seen)
  }

  ghost predicate Sound(s: State) {
    && ApprovalsSound(s.desk.approvals, |s.desk.drafts|)
    && OutboundsSound(s.desk)
    && PeopleSound(s.people, s.desk.approvals)
  }

  /** Approvals are appended to, or decided when pending. */
  ghost predicate Extends(before: seq<Approval>, after: seq<Approval>) {
    && |before| <= |after|
    && forall i :: 0 <= i < |before| ==>
         SameBut(after[i], before[i]) && (before[i].status != Pending ==> after[i] == before[i])
  }

  lemma OutboundsStaySound(d: Desk, d': Desk)
    requires OutboundsSound(d) && d'.outbounds == d.outbounds && |d.drafts| <= |d'.drafts|
    requires Extends(d.approvals, d'.approvals)
    ensures OutboundsSound(d')
  {
    forall i | 0 <= i < |d'.outbounds| ensures Backed(d'.approvals, d'.outbounds[i].draft, TextOf(d'.outbounds[i])) {
      BackingStays(d.approvals, d'.approvals, d.outbounds[i].draft, TextOf(d.outbounds[i]));
    }
  }

  lemma BackingStays(before: seq<Approval>, after: seq<Approval>, draft: nat, text: string)
    requires Extends(before, after) && Backed(before, draft, text)
    ensures Backed(after, draft, text)
  {
    var i :| 0 <= i < |before| && before[i] == Approval(Some(draft), Some(text), Accepted);
    assert after[i] == before[i];
  }

  lemma FreshDeliveryIsSound(text: string, maxAttempts: nat)
    ensures Delivery.Sound(Delivery.Initial(text, maxAttempts), text)
  {
  }

  lemma QueueKeepsSound(d: Desk, draft: nat, runBlocked: bool, to: Destination, maxAttempts: nat)
    requires OutboundsSound(d) && draft < |d.drafts| && Backed(d.approvals, draft, d.drafts[draft].body)
    ensures var r := Queue(d, draft, runBlocked, to, maxAttempts);
            r.Some? ==> OutboundsSound(r.value) && r.value.approvals == d.approvals && r.value.drafts == d.drafts
  {
    FreshDeliveryIsSound(d.drafts[draft].body, maxAttempts);
  }

  lemma MarkKeepsSound(d: Desk, id: nat, status: ApprovalStatus)
    requires ApprovalsSound(d.approvals, |d.drafts|) && id < |d.approvals| && d.approvals[id].status == Pending
    ensures var approvals := d.approvals[id := d.approvals[id].(status := status)];
            ApprovalsSound(approvals, |d.drafts|) && Extends(d.approvals, approvals)
  {
  }

  /** The decision that creates a message sends the text it has just approved. */
  lemma DecideKeepsSound(d: Desk, id: nat, seen: Approval, approve: bool, runBlocked: bool, to: Destination, maxAttempts: nat)
    requires ApprovalsSound(d.approvals, |d.drafts|) && OutboundsSound(d)
    requires id < |d.approvals| && SameBut(d.approvals[id], seen)
    ensures var r := Decided(d, id, seen, approve, runBlocked, to, maxAttempts);
            r.Some? ==> && ApprovalsSound(r.value.approvals, |r.value.drafts|) && OutboundsSound(r.value)
                        && Extends(d.approvals, r.value.approvals)
  {
    if d.approvals[id].status == Pending {
      MarkKeepsSound(d, id, if approve then Accepted else Declined);
      var approvals := d.approvals[id := d.approvals[id].(status := if approve then Accepted else Declined)];
      OutboundsStaySound(d, d.(approvals := approvals));
      if seen.draft.Some? {
        var k := seen.draft.value;
        var drafts := d.drafts[k := Draft(seen.proposed.value, Approved, d.drafts[k].agentRun)];
        var rejected := d.drafts[k := d.drafts[k].(status := Rejected)];
        OutboundsStaySound(d, d.(approvals := approvals, drafts := drafts));
        OutboundsStaySound(d, d.(approvals := approvals, drafts := rejected));
        if approve {
          assert approvals[id] == Approval(Some(k), Some(drafts[k].body), Accepted);
          QueueKeepsSound(d.(approvals := approvals, drafts := drafts), k, runBlocked, to, maxAttempts);
        }
      }
    }
  }

  lemma DeskStepKeepsSound(s: State, a: Action)
    requires Sound(s) && !a.Decide? && !a.Deliver?
    ensures Sound(Step(s, a)) && Extends(s.desk.approvals, Step(s, a).desk.approvals)
  {
    OutboundsStaySound(s.desk, Step(s, a).desk);
  }

  lemma DeliverKeepsSound(s: State, o: nat, step: Delivery.Action)
    requires Sound(s) && o < |s.desk.outbounds|
    ensures Sound(Step(s, Deliver(o, step)))
  {
    var message := s.desk.outbounds[o];
    Delivery.StepKeepsSound(message.delivery, step, TextOf(message));
  }

  lemma StepKeepsSound(s: State, a: Action)
    requires Sound(s)
    ensures Sound(Step(s, a)) && Extends(s.desk.approvals, Step(s, a).desk.approvals)
  {
    match a {
      case Decide(who, approve, runBlocked, to, maxAttempts) =>
        if who in s.people && s.people[who].Deciding? {
          DecideKeepsSound(s.desk, s.people[who].id, s.people[who].seen, approve, runBlocked, to, maxAttempts);
        }
      case Deliver(o, step) =>
        if o < |s.desk.outbounds| {
          DeliverKeepsSound(s, o, step);
        }
      case _ => DeskStepKeepsSound(s, a);
    }
  }

  lemma {:induction false} RunKeepsSound(s: State, actions: seq<Action>)
    requires Sound(s)
    ensures Sound(Run(s, actions))
    decreases |actions|
  {
    if actions != [] {
      StepKeepsSound(s, actions[0]);
      RunKeepsSound(Step(s, actions[0]), actions[1..]);
    }
  }

  /** Approved-text integrity, in every interleaving: a draft has at most one outbound message; the
      message's text, the text any worker has in hand to send, and the text of any external message stored
      for it are the response proposed by an approved approval of that draft. */
  lemma ApprovedTextIntegrity(actions: seq<Action>)
    ensures var d := Run(START, actions).desk;
            && (forall i, j :: 0 <= i < j < |d.outbounds| ==> d.outbounds[i].draft != d.outbounds[j].draft)
            && (forall i :: 0 <= i < |d.outbounds| ==>
                  var o := d.outbounds[i];
                  && Backed(d.approvals, o.draft, TextOf(o))
                  && |o.delivery.tables.externals| <= 1
                  && (forall t :: t in o.delivery.tables.externals ==> t == TextOf(o))
                  && (forall w :: w in o.delivery.workers && !o.delivery.workers[w].Idle? ==>
                        o.delivery.workers[w].snapshot.textBody == TextOf(o)))
  {
    RunKeepsSound(START, actions);
  }

  /** An approval is decided at most once: from then on no step changes it. */
  lemma DecisionsStand(s: State, a: Action, i: nat)
    requires Sound(s) && i < |s.desk.approvals| && s.desk.approvals[i].status != Pending
    ensures i < |Step(s, a).desk.approvals| && Step(s, a).desk.approvals[i] == s.desk.approvals[i]
  {
    StepKeepsSound(s, a);
  }

  // The draft itself is another matter.

  /** The steps that rewrite the text of an agent or manual draft after it was approved. */
  predicate Rewrites(s: State, a: Action, draft: nat) {
    || (a.AgentDraft? && FindRunDraft(s.desk.drafts, a.run) == Some(draft))
    || (a.SaveEdit? && a.who in s.people && s.people[a.who] == Editing(draft))
  }

  /** Once a message is queued, the draft stops showing its text exactly when a worker retry or an edit
      writes something else over it; no decision, send or delivery step does. */
  lemma DraftDivergesExactly(s: State, a: Action, i: nat)
    requires Sound(s) && i < |s.desk.outbounds|
    requires s.desk.drafts[s.desk.outbounds[i].draft].body == TextOf(s.desk.outbounds[i])
    ensures var o := s.desk.outbounds[i];
            && o.draft < |Step(s, a).desk.drafts|
            && (Step(s, a).desk.drafts[o.draft].body != TextOf(o) <==> Rewrites(s, a, o.draft) && a.body != TextOf(o))
  {
    var o := s.desk.outbounds[i];
    if a.Decide? && a.who in s.people && s.people[a.who].Deciding? {
      var k :| 0 <= k < |s.desk.approvals| && s.desk.approvals[k] == Approval(Some(o.draft), Some(TextOf(o)), Accepted);
    }
  }

  // The transactions in place.

  datatype Transaction = Committed(outbound: Option<nat>) | RolledBack

  /** The rows the approvals controller and the support service change. */
  class SupportDesk {
    var drafts: seq<Draft>
    var approvals: seq<Approval>
    var outbounds: seq<Outbound>
    var messages: seq<string>

    ghost function View(): Desk
      reads this
    {
      Desk(drafts, approvals, outbounds, messages)
    }

    constructor ()
      ensures View() == START.desk
    {
      drafts, approvals, outbounds, messages := [], [], [], [];
    }

    /** The transaction of `updateApproval`; an error thrown on the way undoes the writes before it. */
    method UpdateApproval(id: nat, seen: Approval, approve: bool, runBlocked: bool, to: Destination, maxAttempts: nat)
      returns (r: Transaction)
      requires seen.draft.Some? ==> seen.draft.value < |drafts|
      modifies this
      ensures var after := Decided(old(View()), id, seen, approve, runBlocked, to, maxAttempts);
              if after.None? then r == RolledBack && View() == old(View()) else r.Committed? && View() == after.value
      ensures r.Committed? && seen.draft.Some? ==>
                && |drafts| == |old(drafts)|
                && drafts[seen.draft.value].status == (if approve then Approved else Rejected)
                && (approve && seen.proposed.Some? ==> drafts[seen.draft.value].body == seen.proposed.value)
                && (!approve ==> drafts[seen.draft.value].body == old(drafts)[seen.draft.value].body)
      ensures r.Committed? && r.outbound.Some? ==>
                approve && seen.draft.Some? && FindOutbound(outbounds, seen.draft.value) == r.outbound
    {
      if id >= |approvals| || approvals[id].status != Pending {
        return RolledBack;
      }
      var draftsBefore, approvalsBefore := drafts, approvals;
      approvals := approvals[id := approvals[id].(status := if approve then Accepted else Declined)];
      if seen.draft.None? {
        return Committed(None);
      }
      var k := seen.draft.value;
      if !approve {
        drafts := drafts[k := drafts[k].(status := Rejected)];
        return Committed(None);
      }
      drafts := drafts[k := drafts[k].(status := Approved)];
      if seen.proposed.Some? {
        drafts := drafts[k := drafts[k].(body := seen.proposed.value)];
      }
      assert drafts == draftsBefore[k := drafts[k]];
      r := CreateOutbound(k, runBlocked, to, maxAttempts);
      if r.RolledBack? {
        drafts, approvals := draftsBefore, approvalsBefore;
      }
    }

    /** `createOutboundForApprovedDraft`. */
    method CreateOutbound(draft: nat, runBlocked: bool, to: Destination, maxAttempts: nat) returns (r: Transaction)
      requires draft < |drafts|
      modifies this`outbounds
      ensures var after := Queue(old(View()), draft, runBlocked, to, maxAttempts);
              if after.None? then r == RolledBack && View() == old(View()) else r.Committed? && View() == after.value
      ensures r.Committed? && r.outbound.Some? ==> FindOutbound(outbounds, draft) == r.outbound
    {
      if runBlocked && drafts[draft].agentRun.Some? {
        return RolledBack;
      }
      match to {
        case NoOpenConversation =>
          return Committed(None);
        case NoRecipient =>
          return RolledBack;
        case Recipient =>
          var found := FindOutbound(outbounds, draft);
          if found.None? {
            outbounds := outbounds + [Outbound(draft, Delivery.Initial(drafts[draft].body, maxAttempts))];
            found := Some(|outbounds| - 1);
          }
          return Committed(found);
      }
    }

    method EditDraft(draft: nat, body: string) returns (ok: bool)
      requires draft < |drafts|
      modifies this`drafts
      ensures ok == (old(drafts)[draft].status != Sent)
      ensures View() == if ok then Edited(old(View()), draft, body) else old(View())
    {
      if drafts[draft].status == Sent {
        return false;
      }
      drafts := drafts[draft := drafts[draft].(body := body)];
      return true;
    }

    method SendDraft(draft: nat, requireHuman: bool) returns (ok: bool)
      requires draft < |drafts|
      modifies this`drafts, this`messages
      ensures ok == (old(drafts)[draft].status != Sent && (requireHuman ==> old(drafts)[draft].status == Approved))
      ensures if ok then Some(View()) == SentDraft(old(View()), draft, old(drafts)[draft].body) else View() == old(View())
    {
      if drafts[draft].status == Sent || (requireHuman && drafts[draft].status != Approved) {
        return false;
      }
      messages := messages + [drafts[draft].body];
      drafts := drafts[draft := drafts[draft].(status := Sent)];
      return true;
    }
  }
}
