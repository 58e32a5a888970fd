/** Where accepted mail goes: the customer it is from, the ticket that keeps its text, and the run that
    answers it. */
module InboundRuns {
  import opened Prelude
  import opened Inbound
  import opened InboundStore
  import opened InboundDedup
  import opened InboundThreading

  // One accepted event.

  /** An accepted event adds its message to a conversation, its text to that conversation's ticket, and a
      run for that ticket, with an outbox row that names the event. */
  lemma AcceptedMailRows(db: Db, e: Event) returns (c: nat)
    requires Valid(db) && Accepts(db, e)
    ensures var after := Ingest(db, e);
            && after.messages == db.messages + [Message(e.messageId, Some(e.eventId), c)]
            && |db.conversations| <= |after.conversations| && c < |after.conversations|
            && after.runs == db.runs + [after.conversations[c].ticket]
            && after.dispatches == db.dispatches + [Dispatch(|db.runs|, e.eventId)]
            && after.receipts == db.receipts[e.eventId := Receipt(Processed, 0)]
    ensures var after := Ingest(db, e);
            if c < |db.conversations| then
              && |after.conversations| == |db.conversations|
              && after.tickets == db.tickets[c := db.tickets[c] + [e.body]]
            else
              && c == |db.conversations| && |after.conversations| == |db.conversations| + 1
              && after.tickets == db.tickets + [[e.body]] && after.conversations[c].ticket == |db.tickets|
              && after.conversations[c].key ==
                   if e.threadId.Some? && e.threadId.value != "" then e.threadId
                   else if e.messageId != "" then Some("message:" + e.messageId) else None
    ensures forall d :: 0 <= d < |db.conversations| && d != c ==> Ingest(db, e).conversations[d] == db.conversations[d]
  {
    c := match Thread(db, e) case Joins(joined) => joined case Starts(_) => |db.conversations|;
  }

  /** What an event names as its parents, in the order they are tried. */
  function Named(e: Event): seq<string> {
    (if e.inReplyTo.Some? then [e.inReplyTo.value] else []) + e.references
  }

  predicate StoredUnder(ms: seq<Message>, id: string) {
    exists m :: m in ms && m.messageId == id
  }

  lemma {:induction false} FirstStoredIs(ms: seq<Message>, ids: seq<string>, k: nat, m: Message)
    requires k < |ids| && ids[k] != "" && m in ms && m.messageId == ids[k]
    requires forall i, j :: 0 <= i < j < |ms| ==> ms[i].messageId != ms[j].messageId
    requires forall i :: 0 <= i < k ==> ids[i] == "" || !StoredUnder(ms, ids[i])
    ensures FirstStored(ms, NonEmpty(ids)).Some? && ms[FirstStored(ms, NonEmpty(ids)).value] == m
  {
    if k == 0 {
      var found := FindMessage(ms, ids[0]);
      assert found.Some? && ms[found.value] == m;
      assert NonEmpty(ids)[0] == ids[0];
    } else {
      FirstStoredIs(ms, ids[1..], k - 1, m);
      NotStored(ms, ids);
    }
  }

  lemma NotStored(ms: seq<Message>, ids: seq<string>)
    requires ids != [] && (ids[0] == "" || !StoredUnder(ms, ids[0]))
    ensures FirstStored(ms, NonEmpty(ids)) == FirstStored(ms, NonEmpty(ids[1..]))
  {
    if ids[0] != "" {
      assert NonEmpty(ids)[0] == ids[0] && NonEmpty(ids)[1..] == NonEmpty(ids[1..]);
      assert FindMessage(ms, ids[0]).None?;
    } else {
      assert NonEmpty(ids) == NonEmpty(ids[1..]);
    }
  }

  lemma {:induction false} NoneStored(ms: seq<Message>, ids: seq<string>)
    requires forall i :: 0 <= i < |ids| ==> ids[i] == "" || !StoredUnder(ms, ids[i])
    ensures FirstStored(ms, NonEmpty(ids)).None?
  {
    if ids != [] {
      NoneStored(ms, ids[1..]);
      NotStored(ms, ids);
    }
  }

  /** An accepted event without a thread id joins the conversation of the first message it names, `inReplyTo`
      before the references in their order, that is stored. */
  lemma RepliesJoinTheirParent(db: Db, e: Event, k: nat, m: Message)
    requires Valid(db) && Accepts(db, e) && (e.threadId.None? || e.threadId.value == "")
    requires k < |Named(e)| && Named(e)[k] != "" && m in db.messages && m.messageId == Named(e)[k]
    requires forall i :: 0 <= i < k ==> Named(e)[i] == "" || !StoredUnder(db.messages, Named(e)[i])
    ensures Ingest(db, e).messages == db.messages + [Message(e.messageId, Some(e.eventId), m.conversation)]
  {
    FirstStoredIs(db.messages, Named(e), k, m);
  }

  /** One that names no stored message starts a conversation. */
  lemma OthersStartTheirOwn(db: Db, e: Event)
    requires Valid(db) && Accepts(db, e) && (e.threadId.None? || e.threadId.value == "")
    requires forall i :: 0 <= i < |Named(e)| ==> Named(e)[i] == "" || !StoredUnder(db.messages, Named(e)[i])
    ensures Ingest(db, e).messages == db.messages + [Message(e.messageId, Some(e.eventId), |db.conversations|)]
    ensures |Ingest(db, e).conversations| == |db.conversations| + 1
  {
    NoneStored(db.messages, Named(e));
  }

  /** One with a thread id joins the conversation that has it as its key, whatever it replies to; if none has,
      it starts one. */
  lemma ThreadIdsDecide(db: Db, e: Event, c: nat)
    requires Valid(db) && Accepts(db, e) && e.threadId.Some? && e.threadId.value != ""
    ensures c < |db.conversations| && db.conversations[c].key == e.threadId ==>
              Ingest(db, e).messages == db.messages + [Message(e.messageId, Some(e.eventId), c)]
    ensures (forall d :: 0 <= d < |db.conversations| ==> db.conversations[d].key != e.threadId) ==>
              Ingest(db, e).messages == db.messages + [Message(e.messageId, Some(e.eventId), |db.conversations|)]
  {
  }

  /** The customer of an accepted event's conversation is the one it is from: known by the sender id, whose
      address is then the event's; otherwise by the address; otherwise new. No other customer changes. */
  lemma AcceptedMailReachesItsCustomer(db: Db, e: Event) returns (customer: nat)
    requires Valid(db) && Accepts(db, e)
    ensures var after := Ingest(db, e);
            && customer < |after.customers|
            && after.conversations[after.messages[|db.messages|].conversation].customer == customer
    ensures var row := Ingest(db, e).customers[customer];
            if Given(e.senderId) then row == Customer(e.senderId, e.email)
            else if Given(e.email) then row.email == e.email && (customer < |db.customers| ==> row == db.customers[customer])
            else row == Customer(None, None) && customer == |db.customers|
    ensures var after := Ingest(db, e).customers;
            && |db.customers| <= |after| <= |db.customers| + 1
            && (forall i :: 0 <= i < |db.customers| && i != customer ==> after[i] == db.customers[i])
            && (|db.customers| < |after| ==>
                  && customer == |db.customers|
                  && (Given(e.senderId) ==> forall i :: 0 <= i < |db.customers| ==> db.customers[i].senderId != e.senderId)
                  && (!Given(e.senderId) && Given(e.email) ==> forall i :: 0 <= i < |db.customers| ==> db.customers[i].email != e.email))
  {
    customer := UpsertCustomer(db.customers, e).value.1;
    UpsertsTheSender(db.customers, e);
    AcceptedCustomers(db, e);
  }

  lemma AcceptedCustomers(db: Db, e: Event)
    requires Valid(db) && Accepts(db, e)
    ensures UpsertCustomer(db.customers, e).Some?
    ensures var (customers, customer) := UpsertCustomer(db.customers, e).value;
            var after := Ingest(db, e);
            && after.customers == customers && |after.messages| == |db.messages| + 1
            && after.messages[|db.messages|].conversation < |after.conversations|
            && after.conversations[after.messages[|db.messages|].conversation].customer == customer
  {
  }

  lemma UpsertsTheSender(cs: seq<Customer>, e: Event)
    requires UpsertCustomer(cs, e).Some?
    ensures var (after, customer) := UpsertCustomer(cs, e).value;
            && customer < |after| && |cs| <= |after| <= |cs| + 1
            && (if Given(e.senderId) then after[customer] == Customer(e.senderId, e.email)
                else if Given(e.email) then after[customer].email == e.email && (customer < |cs| ==> after[customer] == cs[customer])
                else after[customer] == Customer(None, None) && customer == |cs|)
            && (forall i :: 0 <= i < |cs| && i != customer ==> after[i] == cs[i])
            && (|cs| < |after| ==>
                  && customer == |cs|
                  && (Given(e.senderId) ==> forall i :: 0 <= i < |cs| ==> cs[i].senderId != e.senderId)
                  && (!Given(e.senderId) && Given(e.email) ==> forall i :: 0 <= i < |cs| ==> cs[i].email != e.email))
  {
  }

  // Runs.

  /** Run `i` was created for the ticket of the conversation that holds the message its outbox row names. */
  ghost predicate RunFollows(db: Db, i: nat)
    requires i < |db.dispatches| && i < |db.runs|
  {
    && (exists m :: m in db.messages && m.eventId == Some(db.dispatches[i].receipt))
    && (forall m :: m in db.messages && m.eventId == Some(db.dispatches[i].receipt) ==>
          m.conversation < |db.conversations| && db.runs[i] == db.conversations[m.conversation].ticket)
  }

  ghost predicate RunsFollow(db: Db) {
    |db.dispatches| == |db.runs| && forall i :: 0 <= i < |db.runs| ==> RunFollows(db, i)
  }

  lemma AcceptedRunFollows(db: Db, e: Event)
    requires Valid(db) && RunsFollow(db) && Accepts(db, e)
    ensures RunsFollow(Ingest(db, e))
  {
    var after := Ingest(db, e);
    var c := AcceptedMailRows(db, e);
    var added := Message(e.messageId, Some(e.eventId), c);
    TicketsStay(db, e);
    forall i | 0 <= i < |after.runs| ensures RunFollows(after, i) {
      if i < |db.runs| {
        assert RunFollows(db, i) && after.dispatches[i] == db.dispatches[i] && after.runs[i] == db.runs[i];
        var m :| m in db.messages && m.eventId == Some(db.dispatches[i].receipt);
        assert m in after.messages;
        forall m' | m' in after.messages && m'.eventId == Some(after.dispatches[i].receipt)
          ensures m'.conversation < |after.conversations| && after.runs[i] == after.conversations[m'.conversation].ticket
        {
          assert m' in db.messages;
        }
      } else {
        assert after.messages[|db.messages|] == added && added in after.messages;
        forall m | m in after.messages && m.eventId == Some(e.eventId) ensures m == added {
          assert m in db.messages || m == added;
        }
      }
    }
  }

  lemma RefusedRunsFollow(db: Db, e: Event)
    requires Valid(db) && RunsFollow(db) && !Accepts(db, e)
    ensures RunsFollow(Ingest(db, e))
  {
    var after := Ingest(db, e);
    assert after.messages == db.messages && after.dispatches == db.dispatches && after.runs == db.runs;
    assert after.conversations == db.conversations;
    forall i | 0 <= i < |after.runs| ensures RunFollows(after, i) {
      assert RunFollows(db, i);
    }
  }

  lemma SentRunsFollow(db: Db, id: string, answers: nat)
    requires Valid(db) && RunsFollow(db)
    ensures RunsFollow(Arrive(db, Out(id, answers)))
  {
    var after := Arrive(db, Out(id, answers));
    forall i | 0 <= i < |after.runs| ensures RunFollows(after, i) {
      assert RunFollows(db, i);
      var m :| m in db.messages && m.eventId == Some(db.dispatches[i].receipt);
      assert m in after.messages;
      assert forall m' :: m' in after.messages && m'.eventId.Some? ==> m' in db.messages;
    }
  }

  lemma ArrivalRunsFollow(db: Db, a: Arrival)
    requires Valid(db) && RunsFollow(db)
    ensures RunsFollow(Arrive(db, a))
  {
    match a
    case In(e) =>
      if Accepts(db, e) {
        AcceptedRunFollows(db, e);
      } else {
        RefusedRunsFollow(db, e);
      }
    case Out(id, answers) => SentRunsFollow(db, id, answers);
  }

  lemma {:induction false} ArrivedRunsFollow(arr: seq<Arrival>)
    ensures RunsFollow(ArriveAll(arr))
  {
    if arr != [] {
      ArrivedRunsFollow(arr[..|arr| - 1]);
      ArrivalRunsFollow(ArriveAll(arr[..|arr| - 1]), arr[|arr| - 1]);
    }
  }

  lemma {:induction false} IngestedRunsFollow(es: seq<Event>)
    ensures RunsFollow(IngestAll(es))
  {
    if es != [] {
      IngestedRunsFollow(es[..|es| - 1]);
      ArrivalRunsFollow(IngestAll(es[..|es| - 1]), In(es[|es| - 1]));
    }
  }

  /** After any run of mail in both directions, each agent run works on the ticket of the conversation that
      holds the message it was created for, and that message is stored. */
  lemma RunsWorkOnTheirMail(arr: seq<Arrival>, i: nat)
    requires i < |ArriveAll(arr).dispatches|
    ensures var db := ArriveAll(arr);
            && |db.runs| == |db.dispatches| && db.dispatches[i].run == i
            && (exists m :: m in db.messages && m.eventId == Some(db.dispatches[i].receipt))
            && (forall m :: m in db.messages && m.eventId == Some(db.dispatches[i].receipt) ==>
                  m.conversation < |db.conversations| && db.runs[i] == db.conversations[m.conversation].ticket)
  {
    ArrivedRunsFollow(arr);
    assert RunFollows(ArriveAll(arr), i);
  }

  /** The same of any deliveries of one connection's events. */
  lemma DeliveredRunsWorkOnTheirMail(es: seq<Event>, i: nat)
    requires i < |IngestAll(es).dispatches|
    ensures var db := IngestAll(es);
            && |db.runs| == |db.dispatches| && db.dispatches[i].run == i
            && (exists m :: m in db.messages && m.eventId == Some(db.dispatches[i].receipt))
            && (forall m :: m in db.messages && m.eventId == Some(db.dispatches[i].receipt) ==>
                  m.conversation < |db.conversations| && db.runs[i] == db.conversations[m.conversation].ticket)
  {
    IngestedRunsFollow(es);
    assert RunFollows(IngestAll(es), i);
  }

  // Tickets.

  /** The conversation an arrival is accepted into. */
  function Into(db: Db, a: Arrival): Option<nat>
    requires Valid(db)
  {
    var after := Arrive(db, a);
    if a.In? && Accepts(db, a.e) && |db.messages| < |after.messages|
    then Some(after.messages[|db.messages|].conversation) else None
  }

  /** The conversation that arrival `i` was accepted into. */
  function AcceptedInto(arr: seq<Arrival>, i: nat): Option<nat>
    requires i < |arr|
  {
    Into(ArriveAll(arr[..i]), arr[i])
  }

  function AcceptedEach(arr: seq<Arrival>): (r: seq<Option<nat>>)
    ensures |r| == |arr| && forall i :: 0 <= i < |arr| ==> r[i] == AcceptedInto(arr, i)
  {
    seq(|arr|, i requires 0 <= i < |arr| => AcceptedInto(arr, i))
  }

  /** The texts of the arrivals accepted into conversation `c`, in order. */
  function MailIn(arr: seq<Arrival>, into: seq<Option<nat>>, c: nat): seq<string>
    requires |into| == |arr|
  {
    if arr == [] then []
    else
      var last := |arr| - 1;
      MailIn(arr[..last], into[..last], c) + if arr[last].In? && into[last] == Some(c) then [arr[last].e.body] else []
  }

  lemma ArriveLast(arr: seq<Arrival>, i: nat)
    requires i < |arr|
    ensures ArriveAll(arr[..i + 1]) == Arrive(ArriveAll(arr[..i]), arr[i])
  {
    assert arr[..i + 1][..i] == arr[..i];
  }

  lemma TicketsOfOne(db: Db, a: Arrival, c: nat)
    requires Valid(db) && c < |Arrive(db, a).conversations|
    ensures |Arrive(db, a).tickets| == |Arrive(db, a).conversations|
    ensures Arrive(db, a).tickets[c] ==
              (if c < |db.tickets| then db.tickets[c] else []) + (if Into(db, a) == Some(c) then [a.e.body] else [])
    ensures c >= |db.tickets| ==> Into(db, a) == Some(c)
  {
    if a.In? && Accepts(db, a.e) {
      var k := AcceptedMailRows(db, a.e);
    }
  }

  /** Conversations and messages are only ever added, and each message is in one of the conversations. */
  lemma Rows(db: Db, a: Arrival)
    requires Valid(db)
    ensures |db.conversations| <= |Arrive(db, a).conversations|
    ensures db.messages <= Arrive(db, a).messages
    ensures forall i :: 0 <= i < |Arrive(db, a).messages| ==> Arrive(db, a).messages[i].conversation < |Arrive(db, a).conversations|
  {
    ArriveKeepsValid(db, a);
    var after := Arrive(db, a);
    assert forall i :: 0 <= i < |after.messages| ==> after.messages[i] in after.messages;
  }

  /** The rows before and after each arrival. */
  ghost predicate Trace(dbs: seq<Db>, arr: seq<Arrival>, into: seq<Option<nat>>) {
    && |dbs| == |arr| + 1 && |into| == |arr| && dbs[0] == EMPTY
    && (forall i :: 0 <= i < |dbs| ==> Valid(dbs[i]))
    && forall i :: 0 <= i < |arr| ==> Follows(dbs[i], arr[i], dbs[i + 1], into[i])
  }

  ghost predicate Follows(before: Db, a: Arrival, after: Db, into: Option<nat>)
    requires Valid(before)
  {
    after == Arrive(before, a) && into == Into(before, a)
  }

  /** What an arrival does to tickets, and to the conversations' number. */
  lemma TicketGrows(before: Db, a: Arrival, after: Db, into: Option<nat>, c: nat)
    requires Valid(before) && Follows(before, a, after, into)
    ensures |before.tickets| <= |after.tickets|
    ensures (if c < |after.tickets| then after.tickets[c] else []) ==
              (if c < |before.tickets| then before.tickets[c] else []) + (if a.In? && into == Some(c) then [a.e.body] else [])
  {
    Rows(before, a);
    ArriveKeepsValid(before, a);
    if c < |after.tickets| {
      TicketsOfOne(before, a, c);
    }
  }

  lemma {:induction false} TraceHoldsMail(dbs: seq<Db>, arr: seq<Arrival>, into: seq<Option<nat>>, c: nat)
    requires Trace(dbs, arr, into)
    ensures MailIn(arr, into, c) == var tickets := dbs[|arr|].tickets; if c < |tickets| then tickets[c] else []
  {
    if arr != [] {
      var last := |arr| - 1;
      TraceOfPrefix(dbs, arr, into);
      TraceHoldsMail(dbs[..|arr|], arr[..last], into[..last], c);
      TicketGrows(dbs[last], arr[last], dbs[last + 1], into[last], c);
    }
  }

  lemma TraceOfPrefix(dbs: seq<Db>, arr: seq<Arrival>, into: seq<Option<nat>>)
    requires Trace(dbs, arr, into) && arr != []
    ensures Trace(dbs[..|arr|], arr[..|arr| - 1], into[..|arr| - 1])
  {
    forall i | 0 <= i < |arr| - 1 ensures Follows(dbs[..|arr|][i], arr[..|arr| - 1][i], dbs[..|arr|][i + 1], into[..|arr| - 1][i]) {
      assert Follows(dbs[i], arr[i], dbs[i + 1], into[i]);
    }
  }

  lemma TraceOf(arr: seq<Arrival>) returns (dbs: seq<Db>)
    ensures Trace(dbs, arr, AcceptedEach(arr)) && dbs[|arr|] == ArriveAll(arr)
  {
    dbs := seq(|arr| + 1, i requires 0 <= i <= |arr| => ArriveAll(arr[..i]));
    assert arr[..0] == [] && arr[..|arr|] == arr;
    forall i | 0 <= i < |arr| ensures Follows(dbs[i], arr[i], dbs[i + 1], AcceptedEach(arr)[i]) {
      ArriveLast(arr, i);
    }
  }

  /** After any run of mail in both directions, a conversation's ticket holds the texts of the events accepted
      into the conversation, each once and in order of arrival. */
  lemma TicketsHoldTheirMail(arr: seq<Arrival>, c: nat)
    requires c < |ArriveAll(arr).conversations|
    ensures var db := ArriveAll(arr);
            && db.conversations[c].ticket < |db.tickets|
            && db.tickets[db.conversations[c].ticket] == MailIn(arr, AcceptedEach(arr), c)
  {
    var dbs := TraceOf(arr);
    TraceHoldsMail(dbs, arr, AcceptedEach(arr), c);
  }

  lemma {:induction false} MessagesStay(arr: seq<Arrival>, n: nat)
    requires n <= |arr|
    ensures ArriveAll(arr[..n]).messages <= ArriveAll(arr).messages
    decreases |arr| - n
  {
    if n < |arr| {
      ArriveLast(arr, n);
      Rows(ArriveAll(arr[..n]), arr[n]);
      MessagesStay(arr, n + 1);
    } else {
      assert arr[..n] == arr;
    }
  }

  /** What was accepted into a conversation stays there, under its own message id and event id. */
  lemma AcceptedMailStays(arr: seq<Arrival>, i: nat)
    requires i < |arr| && AcceptedInto(arr, i).Some?
    ensures Message(arr[i].e.messageId, Some(arr[i].e.eventId), AcceptedInto(arr, i).value) in ArriveAll(arr).messages
  {
    var before, after := ArriveAll(arr[..i]), ArriveAll(arr[..i + 1]);
    ArriveLast(arr, i);
    var c := AcceptedMailRows(before, arr[i].e);
    assert after.messages[|before.messages|] == Message(arr[i].e.messageId, Some(arr[i].e.eventId), c);
    MessagesStay(arr, i + 1);
    assert ArriveAll(arr).messages[|before.messages|] == after.messages[|before.messages|];
  }

  // Orderly mail: the ticket holds its whole component.

  /** The texts of the events among `some`, the first arrivals of `arr`, that replies and thread ids connect
      with arrival `j`. */
  ghost function ConnectedTexts(some: seq<Arrival>, arr: seq<Arrival>, j: nat): seq<string> {
    if some == [] then []
    else
      var last := |some| - 1;
      ConnectedTexts(some[..last], arr, j) + if some[last].In? && Connected(arr, last, j) then [some[last].e.body] else []
  }

  lemma {:induction false} UpsertsOfPrefix(arr: seq<Arrival>, n: nat)
    requires AllUpsertsSucceed(arr) && n <= |arr|
    ensures AllUpsertsSucceed(arr[..n])
  {
    if n == |arr| {
      assert arr[..n] == arr;
    } else {
      var earlier := arr[..|arr| - 1];
      assert earlier[..n] == arr[..n];
      UpsertsOfPrefix(earlier, n);
    }
  }

  lemma OrderlyIsAccepted(arr: seq<Arrival>, earlier: seq<Arrival>, e: Event)
    requires Orderly(arr) && earlier + [In(e)] <= arr && AllUpsertsSucceed(earlier + [In(e)])
    ensures |ArriveAll(earlier).messages| == |earlier| && Accepts(ArriveAll(earlier), e)
  {
    assert (earlier + [In(e)])[..|earlier|] == earlier;
    ArrivalsFollowLeaders(arr, earlier);
    InboundFollowsLeader(arr, earlier, e, ArriveAll(earlier));
  }

  lemma AcceptedMessage(db: Db, e: Event)
    requires Valid(db) && Accepts(db, e)
    ensures Arrive(db, In(e)).messages != [] && |Arrive(db, In(e)).messages| == |db.messages| + 1
    ensures Into(db, In(e)) == Some(Arrive(db, In(e)).messages[|db.messages|].conversation)
  {
    var c := AcceptedMailRows(db, e);
  }

  lemma AcceptedStaysPut(arr: seq<Arrival>, i: nat)
    requires i < |arr| && arr[i].In? && Accepts(ArriveAll(arr[..i]), arr[i].e) && |ArriveAll(arr[..i]).messages| == i
    ensures i < |ArriveAll(arr).messages| && AcceptedInto(arr, i) == Some(ArriveAll(arr).messages[i].conversation)
  {
    ArriveLast(arr, i);
    AcceptedMessage(ArriveAll(arr[..i]), arr[i].e);
    MessagesStay(arr, i + 1);
  }

  lemma PrefixIsAccepted(arr: seq<Arrival>, i: nat)
    requires i < |arr| && arr[i].In? && Orderly(arr) && AllUpsertsSucceed(arr[..i + 1])
    ensures |ArriveAll(arr[..i]).messages| == i && Accepts(ArriveAll(arr[..i]), arr[i].e)
  {
    assert arr[..i] + [In(arr[i].e)] == arr[..i + 1];
    OrderlyIsAccepted(arr, arr[..i], arr[i].e);
  }

  lemma OrderlyMailIsAccepted(arr: seq<Arrival>, i: nat)
    requires Orderly(arr) && AllUpsertsSucceed(arr) && i < |arr| && arr[i].In?
    ensures i < |ArriveAll(arr).messages| && AcceptedEach(arr)[i] == Some(ArriveAll(arr).messages[i].conversation)
  {
    UpsertsOfPrefix(arr, i + 1);
    PrefixIsAccepted(arr, i);
    AcceptedStaysPut(arr, i);
  }

  lemma OrderlyAcceptsConnected(arr: seq<Arrival>, i: nat, j: nat)
    requires Orderly(arr) && AllUpsertsSucceed(arr) && i < |arr| && j < |arr| && arr[i].In?
    ensures j < |ArriveAll(arr).messages|
    ensures AcceptedEach(arr)[i] == Some(ArriveAll(arr).messages[j].conversation) <==> Connected(arr, i, j)
  {
    OrderlyMailIsAccepted(arr, i);
    ConversationsAreComponents(arr, i, j);
  }

  lemma {:induction false} MailIsConnected(some: seq<Arrival>, into: seq<Option<nat>>, c: nat, arr: seq<Arrival>, j: nat)
    requires |into| == |some|
    requires forall i :: 0 <= i < |some| && some[i].In? ==> (into[i] == Some(c) <==> Connected(arr, i, j))
    ensures MailIn(some, into, c) == ConnectedTexts(some, arr, j)
  {
    if some != [] {
      MailIsConnected(some[..|some| - 1], into[..|some| - 1], c, arr, j);
    }
  }

  /** The ticket of an orderly arrival's conversation holds the texts of exactly the events that replies and
      thread ids connect with it, in order. */
  lemma TicketsAreComponents(arr: seq<Arrival>, j: nat)
    requires Orderly(arr) && AllUpsertsSucceed(arr) && j < |arr|
    ensures var db := ArriveAll(arr);
            && |db.messages| == |arr| && db.messages[j].conversation < |db.conversations|
            && var ticket := db.conversations[db.messages[j].conversation].ticket;
            ticket < |db.tickets| && db.tickets[ticket] == ConnectedTexts(arr, arr, j)
  {
    var db := ArriveAll(arr);
    ConversationsAreComponents(arr, j, j);
    assert db.messages[j] in db.messages;
    var c := db.messages[j].conversation;
    TicketsHoldTheirMail(arr, c);
    forall i | 0 <= i < |arr| && arr[i].In? ensures AcceptedEach(arr)[i] == Some(c) <==> Connected(arr, i, j) {
      OrderlyAcceptsConnected(arr, i, j);
    }
    MailIsConnected(arr, AcceptedEach(arr), c, arr, j);
  }
}
