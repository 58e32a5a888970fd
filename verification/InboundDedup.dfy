/** Redelivered events. Ingesting a list of deliveries leaves the rows of its first deliveries, exactly
    when no repeat is accepted; and what a provider has to keep for that never to happen. */
module InboundDedup {
  import opened Prelude
  import opened Inbound
  import opened InboundStore

  function IngestAll(es: seq<Event>): (db: Db)
    ensures Valid(db)
  {
    if es == [] then EMPTY
    else
      var before := IngestAll(es[..|es| - 1]);
      IngestKeepsValid(before, es[|es| - 1]);
      Ingest(before, es[|es| - 1])
  }

  predicate Repeats(es: seq<Event>, e: Event) {
    exists d :: d in es && d.eventId == e.eventId
  }

  /** The deliveries whose event id has not been delivered before. */
  function FirstDeliveries(es: seq<Event>): seq<Event> {
    if es == [] then []
    else
      var earlier := es[..|es| - 1];
      var last := es[|es| - 1];
      if Repeats(earlier, last) then FirstDeliveries(earlier) else FirstDeliveries(earlier) + [last]
  }

  /** No delivery that repeats an event id is accepted. */
  predicate RepeatsRefused(es: seq<Event>) {
    es == [] ||
    var earlier := es[..|es| - 1];
    var last := es[|es| - 1];
    RepeatsRefused(earlier) && (Repeats(earlier, last) ==> !Accepts(IngestAll(earlier), last))
  }

  /** All rows but the receipts' status and retry count. */
  function Core(db: Db): (Db, set<string>) {
    (db.(receipts := map[]), db.receipts.Keys)
  }

  lemma SameCoreIngestsAlike(a: Db, b: Db, e: Event)
    requires Valid(a) && Valid(b) && Core(a) == Core(b)
    ensures Core(Ingest(a, e)) == Core(Ingest(b, e)) && (Accepts(a, e) <==> Accepts(b, e))
  {
    assert forall id :: id in a.receipts <==> id in a.receipts.Keys;
    assert forall id :: id in b.receipts <==> id in b.receipts.Keys;
    assert a.messages == a.(receipts := map[]).messages == b.(receipts := map[]).messages == b.messages;
    assert a.conversations == b.conversations && a.customers == b.customers && a.tickets == b.tickets;
    assert a.runs == b.runs && a.dispatches == b.dispatches;
    assert Ingest(a, e).receipts.Keys == Ingest(b, e).receipts.Keys;
  }

  lemma ReceiptKeys(db: Db, e: Event)
    requires Valid(db)
    ensures Ingest(db, e).receipts.Keys == db.receipts.Keys + (if Accepts(db, e) then {e.eventId} else {})
  {
  }

  lemma RefusedKeepsCore(db: Db, e: Event)
    requires Valid(db) && !Accepts(db, e)
    ensures Core(Ingest(db, e)) == Core(db)
  {
    assert Ingest(db, e).receipts.Keys == db.receipts.Keys;
  }

  predicate Stored(db: Db, eventId: string) {
    exists m :: m in db.messages && m.eventId == Some(eventId)
  }

  lemma IngestOnlyAddsMessages(db: Db, e: Event)
    requires Valid(db)
    ensures db.messages <= Ingest(db, e).messages && db.receipts.Keys <= Ingest(db, e).receipts.Keys
    ensures Accepts(db, e) <==> Ingest(db, e).messages != db.messages
    ensures Accepts(db, e) ==> Stored(Ingest(db, e), e.eventId)
  {
    if Accepts(db, e) {
      var m := Message(e.messageId, Some(e.eventId), Ingest(db, e).messages[|db.messages|].conversation);
      assert Ingest(db, e).messages[|db.messages|] == m;
      assert m in Ingest(db, e).messages;
    }
  }

  /** While no repeat is accepted, repeats leave no trace but in the receipts. */
  lemma {:induction false} RefusedRepeatsLeaveNoTrace(es: seq<Event>)
    requires RepeatsRefused(es)
    ensures Core(IngestAll(es)) == Core(IngestAll(FirstDeliveries(es)))
  {
    if es != [] {
      var earlier := es[..|es| - 1];
      var last := es[|es| - 1];
      RefusedRepeatsLeaveNoTrace(earlier);
      if Repeats(earlier, last) {
        RefusedKeepsCore(IngestAll(earlier), last);
      } else {
        var first := FirstDeliveries(earlier);
        assert (first + [last])[..|first + [last]| - 1] == first;
        SameCoreIngestsAlike(IngestAll(earlier), IngestAll(first), last);
      }
    }
  }

  lemma RepeatsAppend(es: seq<Event>, last: Event, e: Event)
    ensures Repeats(es + [last], e) <==> Repeats(es, e) || last.eventId == e.eventId
  {
    assert last in es + [last];
    assert forall d :: d in es + [last] <==> d in es || d == last;
  }

  /** The first deliveries deliver the same event ids, each once. */
  lemma {:induction false} FirstDeliveriesExact(es: seq<Event>, e: Event)
    ensures Repeats(es, e) <==> Repeats(FirstDeliveries(es), e)
    ensures forall i, j :: 0 <= i < j < |FirstDeliveries(es)| ==> FirstDeliveries(es)[i].eventId != FirstDeliveries(es)[j].eventId
  {
    if es != [] {
      var earlier := es[..|es| - 1];
      var last := es[|es| - 1];
      assert es == earlier + [last];
      FirstDeliveriesExact(earlier, e);
      RepeatsAppend(earlier, last, e);
      if Repeats(earlier, last) {
        assert last.eventId == e.eventId ==> Repeats(earlier, e);
      } else {
        FirstDeliveriesExact(earlier, last);
        RepeatsAppend(FirstDeliveries(earlier), last, e);
        assert forall d :: d in FirstDeliveries(earlier) ==> d.eventId != last.eventId;
      }
    }
  }

  lemma StaysAbsent(db: Db, e: Event, eventId: string)
    requires Valid(db) && eventId !in db.receipts && e.eventId != eventId
    ensures eventId !in Ingest(db, e).receipts
  {
  }

  lemma {:induction false} AbsentAfterOne(es: seq<Event>, eventId: string)
    requires es != [] && eventId !in IngestAll(es[..|es| - 1]).receipts && es[|es| - 1].eventId != eventId
    ensures eventId !in IngestAll(es).receipts
  {
    StaysAbsent(IngestAll(es[..|es| - 1]), es[|es| - 1], eventId);
  }

  /** An event id that reached no row in the first `n` deliveries, and is not delivered again, reaches none. */
  lemma {:induction false} AbsentStaysAbsent(es: seq<Event>, n: nat, eventId: string)
    requires n <= |es| && eventId !in IngestAll(es[..n]).receipts
    requires forall i :: n <= i < |es| ==> es[i].eventId != eventId
    ensures eventId !in IngestAll(es).receipts
  {
    if n == |es| {
      assert es[..n] == es;
    } else {
      var init := es[..|es| - 1];
      assert init[..n] == es[..n];
      AbsentStaysAbsent(init, n, eventId);
      AbsentAfterOne(es, eventId);
    }
  }

  lemma {:induction false} StoredStaysStored(es: seq<Event>, more: seq<Event>, eventId: string)
    requires Stored(IngestAll(es), eventId)
    ensures Stored(IngestAll(es + more), eventId)
  {
    if more == [] {
      assert es + more == es;
    } else {
      var init := more[..|more| - 1];
      assert (es + more)[..|es + more| - 1] == es + init;
      StoredStaysStored(es, init, eventId);
      IngestOnlyAddsMessages(IngestAll(es + init), more[|more| - 1]);
    }
  }

  /** The first deliveries of a longer list extend those of its prefix, by deliveries of new events. */
  lemma {:induction false} FirstDeliveriesExtend(es: seq<Event>, more: seq<Event>) returns (added: seq<Event>)
    ensures FirstDeliveries(es + more) == FirstDeliveries(es) + added
    ensures forall e :: e in added ==> !Repeats(es, e)
  {
    if more == [] {
      assert es + more == es;
      added := [];
    } else {
      var init := more[..|more| - 1];
      var last := more[|more| - 1];
      assert (es + more)[..|es + more| - 1] == es + init;
      added := FirstDeliveriesExtend(es, init);
      assert forall d :: d in es ==> d in es + init;
      if !Repeats(es + init, last) {
        assert FirstDeliveries(es + more) == (FirstDeliveries(es) + added) + [last];
        added := added + [last];
      }
    }
  }

  lemma OnlyReceivedIsStored(es: seq<Event>, id: string)
    requires id !in IngestAll(es).receipts
    ensures !Stored(IngestAll(es), id)
  {
  }

  /** If a repeat is accepted, its message is stored by the list and not by the list of first deliveries. */
  lemma {:induction false} AcceptedRepeatShows(es: seq<Event>)
    requires !RepeatsRefused(es)
    ensures exists id :: Stored(IngestAll(es), id) && !Stored(IngestAll(FirstDeliveries(es)), id)
  {
    var k := ShortestAccepting(es);
    var earlier, e := es[..k], es[k];
    assert es == earlier + [e] + es[k + 1..] == earlier + es[k..];
    StoredFromHere(earlier, e, es[k + 1..]);
    NeverStoredFirst(earlier, es[k..], e);
  }

  lemma NeverStoredFirst(earlier: seq<Event>, more: seq<Event>, e: Event)
    requires RepeatsRefused(earlier) && Repeats(earlier, e) && e.eventId !in IngestAll(earlier).receipts
    ensures !Stored(IngestAll(FirstDeliveries(earlier + more)), e.eventId)
  {
    RefusedRepeatsLeaveNoTrace(earlier);
    assert e.eventId !in IngestAll(earlier).receipts.Keys;
    var added := FirstDeliveriesExtend(earlier, more);
    forall d | d in added ensures d.eventId != e.eventId {
      assert !Repeats(earlier, d) && Repeats(earlier, e);
    }
    var first := FirstDeliveries(earlier);
    assert (first + added)[..|first|] == first;
    AbsentStaysAbsent(first + added, |first|, e.eventId);
    OnlyReceivedIsStored(FirstDeliveries(earlier + more), e.eventId);
  }

  lemma IngestAllSnoc(es: seq<Event>, e: Event)
    ensures IngestAll(es + [e]) == Ingest(IngestAll(es), e)
  {
    assert (es + [e])[..|es + [e]| - 1] == es;
  }

  lemma StoredFromHere(earlier: seq<Event>, e: Event, more: seq<Event>)
    requires Accepts(IngestAll(earlier), e)
    ensures Stored(IngestAll(earlier + [e] + more), e.eventId)
  {
    IngestAllSnoc(earlier, e);
    IngestOnlyAddsMessages(IngestAll(earlier), e);
    StoredStaysStored(earlier + [e], more, e.eventId);
  }

  /** The first place where a repeat is accepted. */
  lemma {:induction false} ShortestAccepting(es: seq<Event>) returns (k: nat)
    requires !RepeatsRefused(es)
    ensures k < |es| && RepeatsRefused(es[..k]) && Repeats(es[..k], es[k]) && Accepts(IngestAll(es[..k]), es[k])
  {
    var earlier := es[..|es| - 1];
    if RepeatsRefused(earlier) {
      k := |es| - 1;
    } else {
      k := ShortestAccepting(earlier);
      assert earlier[..k] == es[..k];
    }
  }

  /** Duplicate suppression is "first delivery wins" for a list of deliveries exactly when every repeat in
      it is refused. */
  lemma {:induction false} FirstDeliveryWinsExactly(es: seq<Event>)
    ensures Core(IngestAll(es)) == Core(IngestAll(FirstDeliveries(es))) <==> RepeatsRefused(es)
  {
    if RepeatsRefused(es) {
      RefusedRepeatsLeaveNoTrace(es);
    } else {
      AcceptedRepeatShows(es);
      assert IngestAll(es).messages != IngestAll(FirstDeliveries(es)).messages;
      assert Core(IngestAll(es)).0.messages != Core(IngestAll(FirstDeliveries(es))).0.messages;
    }
  }

  // When every repeat is refused.

  /** A delivery that is new leaves room for its customer: neither unique key of a customer is violated. */
  predicate NoCollision(db: Db, e: Event) {
    e.eventId in db.receipts || UpsertCustomer(db.customers, e).Some?
  }

  /** No delivery collides with the customers it finds. */
  predicate UpsertsSucceed(es: seq<Event>) {
    es == [] ||
    var earlier, last := es[..|es| - 1], es[|es| - 1];
    UpsertsSucceed(earlier) && NoCollision(IngestAll(earlier), last)
  }

  /** A repeat is the same event, customer upserts do not collide, and no thread id looks like the key of a
      fresh conversation. */
  ghost predicate Consistent(es: seq<Event>) {
    RepeatsRepeat(es) && UpsertsSucceed(es) && NoThreadClash(es)
  }

  ghost predicate RepeatsRepeat(es: seq<Event>) {
    forall d, e :: d in es && e in es && d.eventId == e.eventId ==> d == e
  }

  ghost predicate NoThreadClash(es: seq<Event>) {
    forall d, e :: d in es && e in es && Given(d.threadId) ==> FreshKey(e) != d.threadId
  }

  ghost predicate KeysExplained(db: Db, es: seq<Event>) {
    forall c :: c in db.conversations && c.key.Some? ==>
      || (exists e :: e in es && Given(e.threadId) && e.threadId == c.key)
      || (exists m :: m in db.messages && c.key == Some("message:" + m.messageId))
  }

  /** With consistent deliveries only a stored message, or a receipt, refuses an event. */
  lemma {:induction false} AcceptedExactly(db: Db, es: seq<Event>, e: Event)
    requires Valid(db) && KeysExplained(db, es) && NoCollision(db, e)
    requires e in es && NoThreadClash(es)
    ensures Accepts(db, e) <==> e.eventId !in db.receipts && FindMessage(db.messages, e.messageId).None?
    ensures KeysExplained(Ingest(db, e), es)
  {
    if Thread(db, e).Starts? && KeyTaken(db.conversations, Thread(db, e).key) {
      TakenKeyIsAMessage(db, es, e);
    }
    KeysStayExplained(db, es, e);
  }

  lemma TakenKeyIsAMessage(db: Db, es: seq<Event>, e: Event)
    requires Valid(db) && KeysExplained(db, es) && e in es && NoThreadClash(es)
    requires Thread(db, e).Starts? && KeyTaken(db.conversations, Thread(db, e).key)
    ensures FindMessage(db.messages, e.messageId).Some?
  {
    var key := Thread(db, e).key;
    var c := FindKey(db.conversations, key.value).value;
    assert db.conversations[c] in db.conversations;
    assert key == FreshKey(e);
    var m :| m in db.messages && key == Some("message:" + m.messageId);
    SamePrefix("message:", m.messageId, e.messageId);
  }

  lemma KeysStayExplained(db: Db, es: seq<Event>, e: Event)
    requires Valid(db) && KeysExplained(db, es) && e in es
    ensures KeysExplained(Ingest(db, e), es)
  {
    IngestOnlyAddsMessages(db, e);
    var after := Ingest(db, e);
    forall c | c in after.conversations && c.key.Some?
      ensures (exists d :: d in es && Given(d.threadId) && d.threadId == c.key)
              || (exists m :: m in after.messages && c.key == Some("message:" + m.messageId))
    {
      if before :| before in db.conversations && before.key == c.key {
        if m :| m in db.messages && c.key == Some("message:" + m.messageId) {
          assert m in after.messages;
        }
      } else {
        assert after.messages[|db.messages|].messageId == e.messageId;
        assert c.key == (if Given(e.threadId) then e.threadId else FreshKey(e));
      }
    }
  }

  lemma SamePrefix(prefix: string, a: string, b: string)
    requires prefix + a == prefix + b
    ensures a == b
  {
    assert (prefix + a)[|prefix|..] == a && (prefix + b)[|prefix|..] == b;
  }

  /** The event has a receipt, or carries the id of a stored message. */
  predicate Marked(db: Db, e: Event) {
    e.eventId in db.receipts || FindMessage(db.messages, e.messageId).Some?
  }

  lemma MarkStays(db: Db, last: Event, e: Event)
    requires Valid(db) && Marked(db, e)
    ensures Marked(Ingest(db, last), e)
  {
    IngestOnlyAddsMessages(db, last);
    if FindMessage(db.messages, e.messageId).Some? {
      var i := FindMessage(db.messages, e.messageId).value;
      assert Ingest(db, last).messages[i].messageId == e.messageId;
    }
  }

  lemma DeliveryMarks(db: Db, all: seq<Event>, e: Event)
    requires Valid(db) && KeysExplained(db, all) && NoCollision(db, e) && e in all && NoThreadClash(all)
    ensures Marked(Ingest(db, e), e) && KeysExplained(Ingest(db, e), all)
    ensures Marked(db, e) ==> !Accepts(db, e)
  {
    AcceptedExactly(db, all, e);
  }

  /** Every delivered event leaves a mark, and a marked event is not accepted. */
  lemma {:induction false} DeliveredLeavesAMark(es: seq<Event>, all: seq<Event>)
    requires (forall e :: e in es ==> e in all) && UpsertsSucceed(es) && RepeatsRepeat(all) && NoThreadClash(all)
    ensures KeysExplained(IngestAll(es), all)
    ensures forall e :: e in es ==> Marked(IngestAll(es), e)
    ensures RepeatsRefused(es)
  {
    if es != [] {
      var earlier, last := es[..|es| - 1], es[|es| - 1];
      assert es == earlier + [last];
      DeliveredLeavesAMark(earlier, all);
      var db := IngestAll(earlier);
      DeliveryMarks(db, all, last);
      forall e | e in earlier ensures Marked(IngestAll(es), e) {
        MarkStays(db, last, e);
      }
      if Repeats(earlier, last) {
        var d :| d in earlier && d.eventId == last.eventId;
        assert d == last;
      }
    }
  }

  /** Deliveries of consistent events, repeated in any way and order: first delivery wins. */
  lemma {:induction false} DuplicateSuppression(es: seq<Event>)
    requires Consistent(es)
    ensures Core(IngestAll(es)) == Core(IngestAll(FirstDeliveries(es)))
  {
    DeliveredLeavesAMark(es, es);
    FirstDeliveryWinsExactly(es);
  }

  // A condition on the events alone under which customer upserts do not collide.

  function Sender(e: Event): Option<string> {
    if Given(e.senderId) then e.senderId else None
  }

  /** An address always comes with the same sender id, or never with one. */
  ghost predicate CoherentSenders(es: seq<Event>) {
    forall d, e :: d in es && e in es && d.email.Some? && d.email == e.email ==> Sender(d) == Sender(e)
  }

  ghost predicate CustomersExplained(cs: seq<Customer>, es: seq<Event>) {
    forall c :: c in cs && c.email.Some? ==> exists e :: e in es && e.email == c.email && Sender(e) == c.senderId
  }

  lemma NoCustomerCollision(cs: seq<Customer>, es: seq<Event>, e: Event)
    requires CustomersExplained(cs, es) && e in es && CoherentSenders(es)
    requires forall i, j :: 0 <= i < j < |cs| && cs[i].senderId.Some? ==> cs[i].senderId != cs[j].senderId
    ensures UpsertCustomer(cs, e).Some? && CustomersExplained(UpsertCustomer(cs, e).value.0, es)
  {
    if Given(e.senderId) && e.email.Some? {
      forall j | 0 <= j < |cs| && cs[j].email == e.email ensures cs[j].senderId == e.senderId {
        assert cs[j] in cs;
      }
    }
    assert UpsertCustomer(cs, e).Some?;
    var after := UpsertCustomer(cs, e).value.0;
    forall c | c in after && c.email.Some? ensures exists d :: d in es && d.email == c.email && Sender(d) == c.senderId {
      if c !in cs {
        assert c.email == e.email && c.senderId == Sender(e);
      }
    }
  }

  lemma {:induction false} SendersNeverCollide(es: seq<Event>, all: seq<Event>)
    requires (forall e :: e in es ==> e in all) && CoherentSenders(all)
    ensures CustomersExplained(IngestAll(es).customers, all) && UpsertsSucceed(es)
  {
    if es != [] {
      var earlier, last := es[..|es| - 1], es[|es| - 1];
      assert es == earlier + [last];
      SendersNeverCollide(earlier, all);
      NoCustomerCollision(IngestAll(earlier).customers, all, last);
      CustomersAfter(IngestAll(earlier), last);
    }
  }

  lemma CustomersAfter(db: Db, e: Event)
    requires Valid(db)
    ensures var after := Ingest(db, e).customers;
            after == db.customers || (UpsertCustomer(db.customers, e).Some? && after == UpsertCustomer(db.customers, e).value.0)
  {
  }

  lemma CoherentSendersNeverCollide(es: seq<Event>)
    requires CoherentSenders(es)
    ensures UpsertsSucceed(es)
  {
    SendersNeverCollide(es, es);
  }

  // What a repeat leaves behind.

  function Deliveries(es: seq<Event>, eventId: string): nat {
    if es == [] then 0
    else Deliveries(es[..|es| - 1], eventId) + if es[|es| - 1].eventId == eventId then 1 else 0
  }

  lemma {:induction false} NoDeliveries(es: seq<Event>, e: Event)
    ensures Deliveries(es, e.eventId) == 0 <==> !Repeats(es, e)
  {
    if es != [] {
      assert es == es[..|es| - 1] + [es[|es| - 1]];
      NoDeliveries(es[..|es| - 1], e);
      RepeatsAppend(es[..|es| - 1], es[|es| - 1], e);
    }
  }

  lemma ReceiptAfter(db: Db, e: Event, id: string)
    requires Valid(db)
    ensures var after := Ingest(db, e).receipts;
            && (id != e.eventId ==> (id in after <==> id in db.receipts) && (id in after ==> after[id] == db.receipts[id]))
            && (e.eventId in db.receipts ==>
                  e.eventId in after && after[e.eventId] == Receipt(Duplicate, db.receipts[e.eventId].retryCount + 1))
            && (e.eventId !in db.receipts && e.eventId in after ==> after[e.eventId] == Receipt(Processed, 0))
  {
  }

  function ReceiptAfterRepeats(n: nat): Receipt {
    Receipt(if n == 0 then Processed else Duplicate, n)
  }

  lemma LaterReceipt(db: Db, e: Event, eventId: string, n: nat)
    requires Valid(db) && eventId in db.receipts && db.receipts[eventId] == ReceiptAfterRepeats(n)
    ensures eventId in Ingest(db, e).receipts
    ensures Ingest(db, e).receipts[eventId] == ReceiptAfterRepeats(n + if e.eventId == eventId then 1 else 0)
  {
  }

  /** Whether the first `i` deliveries leave a receipt for an event id, for each `i`. */
  function Received(es: seq<Event>, eventId: string): (r: seq<bool>)
    ensures |r| == |es| + 1 && forall i :: 0 <= i <= |es| ==> r[i] == (eventId in IngestAll(es[..i]).receipts)
  {
    seq(|es| + 1, i requires 0 <= i <= |es| => eventId in IngestAll(es[..i]).receipts)
  }

  /** The delivery that first left a receipt for an event id. */
  lemma {:induction false} FirstReceipt(es: seq<Event>, eventId: string) returns (k: nat)
    requires eventId in IngestAll(es).receipts
    ensures k < |es| && eventId !in IngestAll(es[..k]).receipts && eventId in IngestAll(es[..k + 1]).receipts
  {
    var flags := Received(es, eventId);
    assert es[..0] == [] && es[..|es|] == es;
    k := FirstTurn(flags);
  }

  /** The first receipt of an event id comes with its acceptance. */
  lemma ReceiptMeansAccepted(db: Db, e: Event, eventId: string)
    requires Valid(db) && eventId !in db.receipts && eventId in Ingest(db, e).receipts
    ensures e.eventId == eventId && Accepts(db, e) && Ingest(db, e).receipts[eventId] == ReceiptAfterRepeats(0)
  {
  }

  lemma {:induction false} CountedAfterOne(es: seq<Event>, eventId: string, n: nat)
    requires es != [] && eventId in IngestAll(es[..|es| - 1]).receipts
    requires IngestAll(es[..|es| - 1]).receipts[eventId] == ReceiptAfterRepeats(n)
    ensures eventId in IngestAll(es).receipts
    ensures IngestAll(es).receipts[eventId] == ReceiptAfterRepeats(n + if es[|es| - 1].eventId == eventId then 1 else 0)
  {
    LaterReceipt(IngestAll(es[..|es| - 1]), es[|es| - 1], eventId, n);
  }

  lemma {:induction false} DeliveriesGrow(es: seq<Event>, k: nat, eventId: string)
    requires k < |es|
    ensures Deliveries(es[k..], eventId) ==
              Deliveries(es[..|es| - 1][k..], eventId) + if es[|es| - 1].eventId == eventId then 1 else 0
  {
    var later := es[k..];
    assert later[..|later| - 1] == es[..|es| - 1][k..] && later[|later| - 1] == es[|es| - 1];
  }

  lemma {:induction false} CountedFrom(es: seq<Event>, k: nat, eventId: string)
    requires k <= |es| && eventId in IngestAll(es[..k]).receipts
    requires IngestAll(es[..k]).receipts[eventId] == ReceiptAfterRepeats(0)
    ensures eventId in IngestAll(es).receipts
    ensures IngestAll(es).receipts[eventId] == ReceiptAfterRepeats(Deliveries(es[k..], eventId))
  {
    if k == |es| {
      assert es[..k] == es && es[k..] == [];
    } else {
      var init := es[..|es| - 1];
      assert init[..k] == es[..k];
      CountedFrom(init, k, eventId);
      DeliveriesGrow(es, k, eventId);
      CountedAfterOne(es, eventId, Deliveries(init[k..], eventId));
    }
  }

  lemma {:induction false} FirstReceiptIsAccepted(es: seq<Event>, k: nat, eventId: string)
    requires k < |es| && eventId !in IngestAll(es[..k]).receipts && eventId in IngestAll(es[..k + 1]).receipts
    ensures es[k].eventId == eventId && Accepts(IngestAll(es[..k]), es[k])
    ensures IngestAll(es[..k + 1]).receipts[eventId] == ReceiptAfterRepeats(0)
  {
    var upTo := es[..k + 1];
    assert upTo[..|upTo| - 1] == es[..k] && upTo[|upTo| - 1] == es[k];
    ReceiptMeansAccepted(IngestAll(es[..k]), es[k], eventId);
  }

  /** A receipt counts the deliveries of its event id after the one that was accepted, for any list at all. */
  lemma {:induction false} ReceiptsCountLaterDeliveries(es: seq<Event>, eventId: string) returns (k: nat)
    requires eventId in IngestAll(es).receipts
    ensures k < |es| && es[k].eventId == eventId && Accepts(IngestAll(es[..k]), es[k])
    ensures IngestAll(es).receipts[eventId] == ReceiptAfterRepeats(Deliveries(es[k + 1..], eventId))
  {
    k := FirstReceipt(es, eventId);
    FirstReceiptIsAccepted(es, k, eventId);
    CountedFrom(es, k + 1, eventId);
  }

  /** A receipt counts the repeats of its event, and tells whether there were any. */
  lemma {:induction false} ReceiptsCountRepeats(es: seq<Event>, eventId: string)
    requires RepeatsRefused(es)
    ensures eventId in IngestAll(es).receipts ==>
              var n := Deliveries(es, eventId);
              n >= 1 && IngestAll(es).receipts[eventId] == Receipt(if n == 1 then Processed else Duplicate, n - 1)
  {
    if es != [] {
      var earlier, last := es[..|es| - 1], es[|es| - 1];
      ReceiptsCountRepeats(earlier, eventId);
      NoDeliveries(earlier, last);
      ReceiptAfter(IngestAll(earlier), last, eventId);
    }
  }

  // Each condition on the provider is needed: in each list below a repeat is accepted.

  lemma AcceptedRepeat(es: seq<Event>, e: Event)
    requires Repeats(es, e) && Accepts(IngestAll(es), e)
    ensures !RepeatsRefused(es + [e])
  {
    assert (es + [e])[..|es + [e]| - 1] == es;
  }

  lemma AfterOne(d: Event)
    ensures Valid(Ingest(EMPTY, d)) && IngestAll([d]) == Ingest(EMPTY, d)
  {
    IngestKeepsValid(EMPTY, d);
    assert [d] == [] + [d];
    IngestAllSnoc([], d);
  }

  lemma AfterOneMore(es: seq<Event>, db: Db, e: Event)
    requires Valid(db) && IngestAll(es) == db
    ensures IngestAll(es + [e]) == Ingest(db, e)
  {
    IngestAllSnoc(es, e);
  }

  lemma ThreeInARow<T>(d: T, e: T, f: T)
    ensures [d] + [e] + [f] == [d, e, f] && e in [d, e, f]
  {
    assert [d, e, f][1] == e;
  }

  /** A second event that is refused leaves what the first and the third leave. */
  lemma AfterRefusal(d: Event, e: Event, f: Event, one: Db)
    requires one == Ingest(EMPTY, d) && Valid(one) && Ingest(one, e) == one
    ensures IngestAll([d] + [e] + [f]) == Ingest(one, f)
  {
    AfterOne(d);
    AfterOneMore([d], one, e);
    AfterOneMore([d] + [e], one, f);
  }

  lemma AcceptedLater(es: seq<Event>, db: Db, e: Event, again: Event)
    requires IngestAll(es) == db && Valid(db) && Accepts(db, again) && e in es && again.eventId == e.eventId
    ensures !RepeatsRefused(es + [again])
  {
    AcceptedRepeat(es, again);
  }

  /** A second event refused once, and accepted after a third. */
  lemma RefusedThenAccepted(d: Event, e: Event, f: Event, again: Event)
    requires Valid(Ingest(EMPTY, d)) && Ingest(Ingest(EMPTY, d), e) == Ingest(EMPTY, d)
    requires Valid(Ingest(Ingest(EMPTY, d), f)) && Accepts(Ingest(Ingest(EMPTY, d), f), again)
    requires again.eventId == e.eventId
    ensures !RepeatsRefused([d, e, f] + [again])
  {
    ThreeInARow(d, e, f);
    AfterRefusal(d, e, f, Ingest(EMPTY, d));
    AcceptedLater([d, e, f], Ingest(Ingest(EMPTY, d), f), e, again);
  }

  /** An event with a new event id, message id and thread key is accepted, and starts a conversation. */
  lemma NewThreadIsAccepted(db: Db, e: Event, key: Option<string>)
    requires Valid(db) && Thread(db, e) == Starts(key) && !KeyTaken(db.conversations, key)
    requires e.eventId !in db.receipts && FindMessage(db.messages, e.messageId).None? && UpsertCustomer(db.customers, e).Some?
    ensures Accepts(db, e) && Valid(Ingest(db, e))
    ensures var after := Ingest(db, e);
            && after.receipts.Keys == db.receipts.Keys + {e.eventId}
            && after.customers == UpsertCustomer(db.customers, e).value.0
            && after.messages == db.messages + [Message(e.messageId, Some(e.eventId), |db.conversations|)]
            && after.conversations == db.conversations + [Conversation(key, UpsertCustomer(db.customers, e).value.1, |db.tickets|)]
  {
    IngestKeepsValid(db, e);
  }

  /** What a first delivery leaves. */
  lemma FirstDelivery(none: Db, d: Event)
    requires none.receipts == map[] && none.customers == [] && none.conversations == [] && none.messages == []
    requires Valid(none) && d.messageId != "" && d.inReplyTo.None? && d.references == []
    ensures Valid(Ingest(none, d))
    ensures var db := Ingest(none, d);
            && db.receipts.Keys == {d.eventId}
            && db.conversations == [Conversation(if Given(d.threadId) then d.threadId else FreshKey(d), 0, 0)]
            && db.messages == [Message(d.messageId, Some(d.eventId), 0)] && FindMessage(db.messages, d.messageId).Some?
            && (Given(d.senderId) ==> db.customers == [Customer(d.senderId, d.email)])
  {
    assert ReplyIds(d) == [];
    NewThreadIsAccepted(none, d, if Given(d.threadId) then d.threadId else FreshKey(d));
  }

  /** Mail that starts a conversation of its own. */
  predicate Plain(e: Event) {
    e.threadId.None? && e.inReplyTo.None? && e.references == [] && e.messageId != ""
  }

  /** Two thread-key prefixes name the same message only if the messages are the same. */
  lemma FreshKeysDiffer(d: Event, e: Event)
    requires d.messageId != e.messageId && d.messageId != "" && e.messageId != ""
    ensures FreshKey(d) != FreshKey(e)
  {
    if FreshKey(d) == FreshKey(e) {
      SamePrefix("message:", d.messageId, e.messageId);
    }
  }

  lemma PlainStartsAThread(db: Db, e: Event)
    requires Valid(db) && Plain(e)
    ensures Thread(db, e) == Starts(FreshKey(e))
  {
    assert ReplyIds(e) == [];
  }

  /** Not the same event: a first delivery refused for its message id, repeated with another message id. */
  lemma ChangedPayloadIsAccepted(d: Event, e: Event, f: Event, changed: Event)
    requires Plain(d) && Plain(e) && Plain(f) && Plain(changed)
    requires d.senderId.None? && e.senderId.None? && f.senderId.None? && changed.senderId.None?
    requires d.email.None? && e.email.None? && f.email.None? && changed.email.None?
    requires d.eventId != e.eventId == changed.eventId && f.eventId != e.eventId && f.eventId != d.eventId
    requires d.messageId == e.messageId != changed.messageId && f.messageId != changed.messageId && f.messageId != d.messageId
    ensures !RepeatsRefused([d, e, f] + [changed])
  {
    FirstDelivery(EMPTY, d);
    RefusedKeepsRows(Ingest(EMPTY, d), e);
    TwoMore(Ingest(EMPTY, d), d, f, changed);
    RefusedThenAccepted(d, e, f, changed);
  }

  lemma RefusedKeepsRows(db: Db, e: Event)
    requires Valid(db) && e.eventId !in db.receipts
    requires UpsertCustomer(db.customers, e).None? || FindMessage(db.messages, e.messageId).Some?
    ensures Ingest(db, e) == db
  {
  }

  lemma TwoMore(db: Db, d: Event, f: Event, g: Event)
    requires Valid(db) && db.receipts.Keys == {d.eventId} && d.messageId != ""
    requires db.conversations == [Conversation(FreshKey(d), 0, 0)] && db.messages == [Message(d.messageId, Some(d.eventId), 0)]
    requires Plain(f) && Plain(g) && f.senderId.None? && g.senderId.None? && f.email.None? && g.email.None?
    requires d.eventId != f.eventId && d.eventId != g.eventId && f.eventId != g.eventId
    requires d.messageId != f.messageId && d.messageId != g.messageId && f.messageId != g.messageId
    ensures Valid(Ingest(db, f)) && Accepts(Ingest(db, f), g)
  {
    FreshKeysDiffer(d, f);
    FreshKeysDiffer(d, g);
    FreshKeysDiffer(f, g);
    PlainStartsAThread(db, f);
    NewThreadIsAccepted(db, f, FreshKey(f));
    PlainStartsAThread(Ingest(db, f), g);
    NewThreadIsAccepted(Ingest(db, f), g, FreshKey(g));
  }

  /** A collision: an address held by one sender, refused for a second, and freed by the first
      one's new address. */
  lemma FreedAddressIsAccepted(d: Event, e: Event, f: Event)
    requires Plain(d) && Plain(e) && Plain(f) && Given(d.senderId) && Given(e.senderId)
    requires d.senderId == f.senderId != e.senderId && d.email.Some? && f.email.Some? && d.email == e.email != f.email
    requires d.eventId != e.eventId && d.eventId != f.eventId && e.eventId != f.eventId
    requires d.messageId != e.messageId && d.messageId != f.messageId && e.messageId != f.messageId
    ensures !RepeatsRefused([d, e, f] + [e])
  {
    FirstDelivery(EMPTY, d);
    HeldAddress([Customer(d.senderId, d.email)], e);
    RefusedKeepsRows(Ingest(EMPTY, d), e);
    FreedAddress(Ingest(EMPTY, d), d, e, f);
    RefusedThenAccepted(d, e, f, e);
  }

  lemma HeldAddress(cs: seq<Customer>, e: Event)
    requires |cs| == 1 && Given(e.senderId) && e.email.Some? && cs[0].email == e.email && cs[0].senderId != e.senderId
    ensures UpsertCustomer(cs, e).None?
  {
  }

  lemma FreedAddress(db: Db, d: Event, e: Event, f: Event)
    requires Valid(db) && db.receipts.Keys == {d.eventId} && db.customers == [Customer(d.senderId, d.email)]
    requires db.conversations == [Conversation(FreshKey(d), 0, 0)] && db.messages == [Message(d.messageId, Some(d.eventId), 0)]
    requires Plain(d) && Plain(e) && Plain(f) && Given(d.senderId) && Given(e.senderId)
    requires d.senderId == f.senderId != e.senderId && f.email.Some? && d.email == e.email != f.email
    requires d.eventId != e.eventId && d.eventId != f.eventId && e.eventId != f.eventId
    requires d.messageId != e.messageId && d.messageId != f.messageId && e.messageId != f.messageId
    ensures Valid(Ingest(db, f)) && Accepts(Ingest(db, f), e)
  {
    FreshKeysDiffer(d, e);
    FreshKeysDiffer(d, f);
    FreshKeysDiffer(e, f);
    assert UpsertCustomer(db.customers, f).value.0 == [Customer(f.senderId, f.email)];
    PlainStartsAThread(db, f);
    NewThreadIsAccepted(db, f, FreshKey(f));
    PlainStartsAThread(Ingest(db, f), e);
    NewThreadIsAccepted(Ingest(db, f), e, FreshKey(e));
  }

  /** A thread clash: a reply whose fresh key another event's thread id had taken, and whose parent
      arrives afterwards. */
  lemma ClashingThreadIsAccepted(d: Event, e: Event, f: Event)
    requires d.messageId != "" && d.inReplyTo.None? && d.references == [] && Given(d.threadId)
    requires e.threadId.None? && e.messageId != "" && d.threadId == FreshKey(e) && Plain(f)
    requires e.inReplyTo == Some(f.messageId) && e.references == []
    requires d.senderId.None? && e.senderId.None? && f.senderId.None? && d.email.None? && e.email.None? && f.email.None?
    requires d.eventId != e.eventId && d.eventId != f.eventId && e.eventId != f.eventId
    requires d.messageId != e.messageId && d.messageId != f.messageId && e.messageId != f.messageId
    ensures !RepeatsRefused([d, e, f] + [e])
  {
    FirstDelivery(EMPTY, d);
    KeyClash(Ingest(EMPTY, d), e, f.messageId);
    LateParent(Ingest(EMPTY, d), d, e, f);
    RefusedThenAccepted(d, e, f, e);
  }

  lemma KeyClash(db: Db, e: Event, parent: string)
    requires Valid(db) && e.eventId !in db.receipts && |db.conversations| == 1 == |db.messages|
    requires e.threadId.None? && e.messageId != "" && e.inReplyTo == Some(parent) && parent != "" && e.references == []
    requires db.conversations[0].key == FreshKey(e) && db.messages[0].messageId != parent
    ensures Ingest(db, e) == db
  {
    OneReply(e);
    assert FirstStored(db.messages, [parent]).None?;
    assert Thread(db, e) == Starts(FreshKey(e));
    assert KeyTaken(db.conversations, FreshKey(e));
  }

  lemma LateParent(db: Db, d: Event, e: Event, f: Event)
    requires Valid(db) && db.receipts.Keys == {d.eventId} && db.messages == [Message(d.messageId, Some(d.eventId), 0)]
    requires db.conversations == [Conversation(FreshKey(e), 0, 0)] && e.threadId.None? && e.messageId != "" && Plain(f)
    requires e.inReplyTo == Some(f.messageId) && e.references == []
    requires e.senderId.None? && f.senderId.None? && e.email.None? && f.email.None?
    requires d.eventId != e.eventId && d.eventId != f.eventId && e.eventId != f.eventId
    requires d.messageId != e.messageId && d.messageId != f.messageId && e.messageId != f.messageId
    ensures Valid(Ingest(db, f)) && Accepts(Ingest(db, f), e)
  {
    FreshKeysDiffer(e, f);
    PlainStartsAThread(db, f);
    NewThreadIsAccepted(db, f, FreshKey(f));
    OneReply(e);
    var after := Ingest(db, f);
    assert after.messages[1].messageId == f.messageId;
    assert FirstStored(after.messages, [f.messageId]) == Some(1);
    assert FindMessage(after.messages, e.messageId).None?;
  }

  lemma OneReply(e: Event)
    requires Given(e.inReplyTo) && e.references == []
    ensures ReplyIds(e) == [e.inReplyTo.value]
  {
    var ids := [e.inReplyTo.value];
    assert (if e.inReplyTo.Some? then [e.inReplyTo.value] else []) + e.references == ids;
    assert ids[1..] == [] && NonEmpty(ids) == [ids[0]] + NonEmpty(ids[1..]);
  }
}
