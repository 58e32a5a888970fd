/** Ingesting verified inbound webhooks for one channel connection: the receipt that deduplicates, the
    customer, the conversation the message is threaded into, its ticket, its agent run and the outbox
    row for that run, all in one transaction. Row ids are positions. */
module Inbound {
  import opened Prelude

  /** A verified, parsed inbound event. `email` is the normalised address, absent when it is not one. */
  datatype Event = Event(
    eventId: string,
    messageId: string,
    threadId: Option<string>,
    senderId: Option<string>,
    email: Option<string>,
    inReplyTo: Option<string>,
    references: seq<string>,
    body: string)

  datatype ReceiptStatus = Processed | Duplicate
  datatype Receipt = Receipt(status: ReceiptStatus, retryCount: nat)
  datatype Customer = Customer(senderId: Option<string>, email: Option<string>)
  datatype Conversation = Conversation(key: Option<string>, customer: nat, ticket: nat)
  datatype Message = Message(messageId: string, eventId: Option<string>, conversation: nat)
  datatype Dispatch = Dispatch(run: nat, receipt: string)

  datatype Db = Db(
    receipts: map<string, Receipt>,     // by provider event id
    customers: seq<Customer>,
    conversations: seq<Conversation>,
    tickets: seq<seq<string>>,          // the bodies of each ticket's inbound messages
    runs: seq<nat>,                     // the ticket of each agent run
    dispatches: seq<Dispatch>,
    messages: seq<Message>)

  const EMPTY := Db(map[], [], [], [], [], [], [])

  /** JavaScript truthiness of an optional string. */
  predicate Given(s: Option<string>) {
    s.Some? && s.value != ""
  }

  // Lookups on the unique keys.

  function FindKey(cs: seq<Conversation>, key: string): (r: Option<nat>)
    ensures r.Some? ==> r.value < |cs| && cs[r.value].key == Some(key)
    ensures r.None? ==> forall i :: 0 <= i < |cs| ==> cs[i].key != Some(key)
  {
    if cs == [] then None
    else if cs[|cs| - 1].key == Some(key) then Some(|cs| - 1)
    else FindKey(cs[..|cs| - 1], key)
  }

  function FindMessage(ms: seq<Message>, id: string): (r: Option<nat>)
    ensures r.Some? ==> r.value < |ms| && ms[r.value].messageId == id
    ensures r.None? ==> forall i :: 0 <= i < |ms| ==> ms[i].messageId != id
  {
    if ms == [] then None
    else if ms[|ms| - 1].messageId == id then Some(|ms| - 1)
    else FindMessage(ms[..|ms| - 1], id)
  }

  function FindSender(cs: seq<Customer>, id: string): (r: Option<nat>)
    ensures r.Some? ==> r.value < |cs| && cs[r.value].senderId == Some(id)
    ensures r.None? ==> forall i :: 0 <= i < |cs| ==> cs[i].senderId != Some(id)
  {
    if cs == [] then None
    else if cs[|cs| - 1].senderId == Some(id) then Some(|cs| - 1)
    else FindSender(cs[..|cs| - 1], id)
  }

  function FindEmail(cs: seq<Customer>, email: string): (r: Option<nat>)
    ensures r.Some? ==> r.value < |cs| && cs[r.value].email == Some(email)
    ensures r.None? ==> forall i :: 0 <= i < |cs| ==> cs[i].email != Some(email)
  {
    if cs == [] then None
    else if cs[|cs| - 1].email == Some(email) then Some(|cs| - 1)
    else FindEmail(cs[..|cs| - 1], email)
  }

  // The steps of the transaction. `None` is a violated unique key.

  /** `upsertExternalCustomer`: the customers afterwards, and the one matched. */
  function UpsertCustomer(cs: seq<Customer>, e: Event): Option<(seq<Customer>, nat)> {
    if Given(e.senderId) then
      match FindSender(cs, e.senderId.value)
      case Some(i) =>
        if e.email.Some? && (exists j :: 0 <= j < |cs| && j != i && cs[j].email == e.email) then None
        else Some((cs[i := cs[i].(email := e.email)], i))
      case None =>
        if e.email.Some? && FindEmail(cs, e.email.value).Some? then None
        else Some((cs + [Customer(e.senderId, e.email)], |cs|))
    else if Given(e.email) then
      match FindEmail(cs, e.email.value)
      case Some(i) => Some((cs, i))
      case None => Some((cs + [Customer(None, e.email)], |cs|))
    else Some((cs + [Customer(None, None)], |cs|))
  }

  /** The message ids a threadless event may reply to, in the order they are tried. */
  function ReplyIds(e: Event): seq<string> {
    NonEmpty((if e.inReplyTo.Some? then [e.inReplyTo.value] else []) + e.references)
  }

  function NonEmpty(ids: seq<string>): seq<string> {
    if ids == [] then [] else (if ids[0] != "" then [ids[0]] else []) + NonEmpty(ids[1..])
  }

  /** The first of `ids` that names a stored message. */
  function FirstStored(ms: seq<Message>, ids: seq<string>): (r: Option<nat>)
    ensures r.Some? ==> r.value < |ms| && ms[r.value].messageId in ids
    ensures r.None? ==> forall i :: 0 <= i < |ms| ==> ms[i].messageId !in ids
  {
    if ids == [] then None
    else if FindMessage(ms, ids[0]).Some? then FindMessage(ms, ids[0])
    else FirstStored(ms, ids[1..])
  }

  /** The thread key of a conversation started by a threadless event. */
  function FreshKey(e: Event): Option<string> {
    if e.messageId != "" then Some("message:" + e.messageId) else None
  }

  datatype Threaded = Joins(conversation: nat) | Starts(key: Option<string>)

  /** `findOrCreateConversation`, up to the creation. */
  function Thread(db: Db, e: Event): (r: Threaded)
    requires forall m :: m in db.messages ==> m.conversation < |db.conversations|
    ensures r.Joins? ==> r.conversation < |db.conversations|
  {
    if Given(e.threadId) then
      match FindKey(db.conversations, e.threadId.value)
      case Some(c) => Joins(c)
      case None => Starts(e.threadId)
    else
      match FirstStored(db.messages, ReplyIds(e))
      case Some(i) => Joins(db.messages[i].conversation)
      case None => Starts(FreshKey(e))
  }

  predicate KeyTaken(cs: seq<Conversation>, key: Option<string>) {
    key.Some? && FindKey(cs, key.value).Some?
  }

  /** The rows an accepted event adds: its ticket text, run, outbox row and message. */
  function Attach(db: Db, e: Event, customers: seq<Customer>, conversations: seq<Conversation>,
                  tickets: seq<seq<string>>, conversation: nat): Db
    requires conversation < |conversations|
  {
    Db(db.receipts[e.eventId := Receipt(Processed, 0)], customers, conversations, tickets,
       db.runs + [conversations[conversation].ticket],
       db.dispatches + [Dispatch(|db.runs|, e.eventId)],
       db.messages + [Message(e.messageId, Some(e.eventId), conversation)])
  }

  /** The ingest transaction after its receipt is created. */
  function Process(db: Db, e: Event): Option<Db>
    requires Valid(db)
  {
    match UpsertCustomer(db.customers, e)
    case None => None
    case Some((customers, customer)) =>
      if FindMessage(db.messages, e.messageId).Some? then None
      else
        match Thread(db, e)
        case Joins(c) =>
          var joined := db.conversations[c];
          Some(Attach(db, e, customers, db.conversations[c := joined.(customer := customer)],
                      db.tickets[joined.ticket := db.tickets[joined.ticket] + [e.body]], c))
        case Starts(key) =>
          if KeyTaken(db.conversations, key) then None
          else Some(Attach(db, e, customers, db.conversations + [Conversation(key, customer, |db.tickets|)],
                           db.tickets + [[e.body]], |db.conversations|))
  }

  /** `ingestWebhook` on an inbound event: any violated unique key, the receipt's or another, rolls the
      transaction back and is answered as a duplicate, which touches the event's receipt if it has one. */
  function Ingest(db: Db, e: Event): Db
    requires Valid(db)
  {
    if e.eventId in db.receipts then
      var receipt := db.receipts[e.eventId];
      db.(receipts := db.receipts[e.eventId := Receipt(Duplicate, receipt.retryCount + 1)])
    else
      match Process(db, e)
      case None => db
      case Some(after) => after
  }

  predicate Accepts(db: Db, e: Event)
    requires Valid(db)
  {
    e.eventId !in db.receipts && Process(db, e).Some?
  }

  // What every ingest keeps.

  ghost predicate UniqueKeys(db: Db) {
    && (forall i, j :: 0 <= i < j < |db.conversations| && db.conversations[i].key.Some?
          ==> db.conversations[i].key != db.conversations[j].key)
    && (forall i, j :: 0 <= i < j < |db.messages| ==> db.messages[i].messageId != db.messages[j].messageId)
    && (forall i, j :: 0 <= i < j < |db.messages| && db.messages[i].eventId.Some?
          ==> db.messages[i].eventId != db.messages[j].eventId)
    && (forall i, j :: 0 <= i < j < |db.customers| && db.customers[i].senderId.Some?
          ==> db.customers[i].senderId != db.customers[j].senderId)
    && (forall i, j :: 0 <= i < j < |db.customers| && db.customers[i].email.Some?
          ==> db.customers[i].email != db.customers[j].email)
  }

  /** Each conversation has a ticket of its own, each run a ticket, an outbox row and a receipt of its own. */
  ghost predicate Linked(db: Db) {
    && |db.tickets| == |db.conversations|
    && (forall i :: 0 <= i < |db.conversations| ==> db.conversations[i].ticket == i)
    && (forall m :: m in db.messages ==>
          m.conversation < |db.conversations| && (m.eventId.Some? ==> m.eventId.value in db.receipts))
    && |db.dispatches| == |db.runs|
    && (forall i :: 0 <= i < |db.runs| ==> db.runs[i] < |db.tickets|)
    && (forall i :: 0 <= i < |db.dispatches| ==> db.dispatches[i].run == i && db.dispatches[i].receipt in db.receipts)
    && (forall i, j :: 0 <= i < j < |db.dispatches| ==> db.dispatches[i].receipt != db.dispatches[j].receipt)
  }

  ghost predicate Valid(db: Db) {
    UniqueKeys(db) && Linked(db)
  }
}
