/** `ingestWebhook` in place: the rows of one channel connection, changed by one transaction an event. */
module InboundStore {
  import opened Prelude
  import opened Inbound

  /** Whatever arrives, the unique keys hold, each conversation keeps a ticket of its own, and each run
      its ticket, its outbox row and its receipt. */
  lemma {:induction false} IngestKeepsValid(db: Db, e: Event)
    requires Valid(db)
    ensures Valid(Ingest(db, e))
  {
    if Accepts(db, e) {
      ProcessKeepsUnique(db, e);
      ProcessKeepsLinked(db, e);
    }
  }

  /** The conversations of `before` are still there, in place, with their tickets and keys. */
  predicate Kept(before: seq<Conversation>, after: seq<Conversation>) {
    && |before| <= |after|
    && forall c :: 0 <= c < |before| ==> after[c].ticket == before[c].ticket && after[c].key == before[c].key
  }

  /** A conversation keeps its ticket and its key whatever arrives, and no two share a ticket. */
  lemma TicketsStay(db: Db, e: Event)
    requires Valid(db)
    ensures Kept(db.conversations, Ingest(db, e).conversations)
    ensures var after := Ingest(db, e).conversations;
            forall c, d :: 0 <= c < d < |after| ==> after[c].ticket != after[d].ticket
  {
    IngestKeepsValid(db, e);
  }

  lemma UpsertKeepsUnique(cs: seq<Customer>, e: Event)
    requires UpsertCustomer(cs, e).Some?
    requires forall i, j :: 0 <= i < j < |cs| && cs[i].senderId.Some? ==> cs[i].senderId != cs[j].senderId
    requires forall i, j :: 0 <= i < j < |cs| && cs[i].email.Some? ==> cs[i].email != cs[j].email
    ensures var r := UpsertCustomer(cs, e).value.0;
            forall i, j :: 0 <= i < j < |r| && r[i].senderId.Some? ==> r[i].senderId != r[j].senderId
    ensures var r := UpsertCustomer(cs, e).value.0;
            forall i, j :: 0 <= i < j < |r| && r[i].email.Some? ==> r[i].email != r[j].email
  {
  }

  lemma ProcessKeepsUnique(db: Db, e: Event)
    requires Valid(db) && Accepts(db, e)
    ensures UniqueKeys(Process(db, e).value)
  {
    var after := Process(db, e).value;
    UpsertKeepsUnique(db.customers, e);
    assert after.customers == UpsertCustomer(db.customers, e).value.0;
    forall i | 0 <= i < |db.messages| && db.messages[i].eventId.Some? ensures db.messages[i].eventId.value != e.eventId {
      assert db.messages[i] in db.messages;
    }
  }

  lemma ProcessKeepsLinked(db: Db, e: Event)
    requires Valid(db) && Accepts(db, e)
    ensures Linked(Process(db, e).value)
  {
    var after := Process(db, e).value;
    assert forall m :: m in after.messages ==> m in db.messages || m == after.messages[|db.messages|];
  }

  class ChannelsStore {
    var receipts: map<string, Receipt>
    var customers: seq<Customer>
    var conversations: seq<Conversation>
    var tickets: seq<seq<string>>
    var runs: seq<nat>
    var dispatches: seq<Dispatch>
    var messages: seq<Message>

    ghost function View(): Db
      reads this
    {
      Db(receipts, customers, conversations, tickets, runs, dispatches, messages)
    }

    constructor ()
      ensures View() == EMPTY && Valid(View())
    {
      receipts := map[];
      customers, conversations, tickets, runs, dispatches, messages := [], [], [], [], [], [];
    }

    /** One delivery of an inbound event. The rows stay well linked whatever arrives. */
    method IngestWebhook(e: Event) returns (accepted: bool)
      requires Valid(View())
      modifies this
      ensures View() == Ingest(old(View()), e) && Valid(View())
      ensures accepted == Accepts(old(View()), e)
    {
      IngestKeepsValid(View(), e);
      if e.eventId in receipts {
        MarkDuplicate(e.eventId);
        return false;
      }
      var upserted := UpsertCustomer(customers, e);
      if upserted.None? {
        return false;
      }
      var customer := upserted.value.1;
      var conversation, key := FindConversation(e);
      if conversation.None? && key.Some? && FindKey(conversations, key.value).Some? {
        return false;
      }
      if FindMessage(messages, e.messageId).Some? {
        return false;
      }
      receipts := receipts[e.eventId := Receipt(Processed, 0)];
      customers := upserted.value.0;
      var c := PlaceMessage(conversation, key, customer, e.body);
      dispatches := dispatches + [Dispatch(|runs|, e.eventId)];
      runs := runs + [conversations[c].ticket];
      messages := messages + [Message(e.messageId, Some(e.eventId), c)];
      return true;
    }

    /** The text goes to the ticket of the conversation it joins, or of a new one. */
    method PlaceMessage(conversation: Option<nat>, key: Option<string>, customer: nat, body: string) returns (c: nat)
      requires conversation.Some? ==>
                 conversation.value < |conversations| && conversations[conversation.value].ticket < |tickets|
      modifies this`conversations, this`tickets
      ensures conversation.Some? ==>
                && c == conversation.value
                && conversations == old(conversations)[c := old(conversations)[c].(customer := customer)]
                && var t := old(conversations)[c].ticket; tickets == old(tickets)[t := old(tickets)[t] + [body]]
      ensures conversation.None? ==>
                && c == |old(conversations)|
                && conversations == old(conversations) + [Conversation(key, customer, |old(tickets)|)]
                && tickets == old(tickets) + [[body]]
    {
      if conversation.Some? {
        c := conversation.value;
        conversations := conversations[c := conversations[c].(customer := customer)];
        var ticket := conversations[c].ticket;
        tickets := tickets[ticket := tickets[ticket] + [body]];
      } else {
        c := |conversations|;
        conversations := conversations + [Conversation(key, customer, |tickets|)];
        tickets := tickets + [[body]];
      }
    }

    method MarkDuplicate(eventId: string)
      requires eventId in receipts
      modifies this`receipts
      ensures receipts == old(receipts)[eventId := Receipt(Duplicate, old(receipts)[eventId].retryCount + 1)]
    {
      receipts := receipts[eventId := Receipt(Duplicate, receipts[eventId].retryCount + 1)];
    }

    /** The conversation an event joins, or the key of the one it starts. */
    method FindConversation(e: Event) returns (conversation: Option<nat>, key: Option<string>)
      requires Valid(View())
      ensures match Thread(View(), e)
              case Joins(c) => conversation == Some(c)
              case Starts(k) => conversation == None && key == k
    {
      if e.threadId.Some? && e.threadId.value != "" {
        return FindKey(conversations, e.threadId.value), e.threadId;
      }
      var ids := ReplyIds(e);
      var i := 0;
      while i < |ids|
        invariant 0 <= i <= |ids|
        invariant FirstStored(messages, ids) == FirstStored(messages, ids[i..])
      {
        var found := FindMessage(messages, ids[i]);
        if found.Some? {
          return Some(messages[found.value].conversation), None;
        }
        i := i + 1;
      }
      return None, FreshKey(e);
    }
  }
}
