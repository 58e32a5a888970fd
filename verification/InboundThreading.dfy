/** Conversations are the connected components of "replies to" and "same thread id". The graph is
    defined from what arrived, without the stored conversations. */
module InboundThreading {
  import opened Prelude
  import opened Inbound
  import opened InboundStore
  import opened InboundDedup

  /** What reaches the conversation tables: an inbound event, or a message the support side sent into the
      conversation of an earlier message. */
  datatype Arrival =
    | In(e: Event)
    | Out(id: string, answers: nat)

  function IdOf(a: Arrival): string {
    match a
    case In(e) => e.messageId
    case Out(id, _) => id
  }

  /** Sent messages are stored by the delivery worker, under a provider message id of their own. */
  function Arrive(db: Db, a: Arrival): Db
    requires Valid(db)
  {
    match a
    case In(e) => Ingest(db, e)
    case Out(id, answers) =>
      if answers < |db.messages| && FindMessage(db.messages, id).None?
      then db.(messages := db.messages + [Message(id, None, db.messages[answers].conversation)]) else db
  }

  lemma ArriveKeepsValid(db: Db, a: Arrival)
    requires Valid(db)
    ensures Valid(Arrive(db, a))
  {
    match a
    case In(e) => IngestKeepsValid(db, e);
    case Out(id, answers) =>
      assert forall m :: m in Arrive(db, a).messages ==> m in db.messages || m == Arrive(db, a).messages[|db.messages|];
  }

  function ArriveAll(arr: seq<Arrival>): (db: Db)
    ensures Valid(db)
  {
    if arr == [] then EMPTY
    else
      var before := ArriveAll(arr[..|arr| - 1]);
      ArriveKeepsValid(before, arr[|arr| - 1]);
      Arrive(before, arr[|arr| - 1])
  }

  /** Over any run of mail in both directions, repeated or not: a conversation keeps its ticket and its key
      forever, and no two conversations ever share a ticket. */
  lemma {:induction false} TicketsStayForever(arr: seq<Arrival>, more: seq<Arrival>)
    ensures Kept(ArriveAll(arr).conversations, ArriveAll(arr + more).conversations)
    ensures var after := ArriveAll(arr + more).conversations;
            forall c, d :: 0 <= c < d < |after| ==> after[c].ticket != after[d].ticket
  {
    if more == [] {
      assert arr + more == arr;
    } else {
      var init, last := more[..|more| - 1], more[|more| - 1];
      assert (arr + more)[..|arr + more| - 1] == arr + init;
      TicketsStayForever(arr, init);
      if last.In? {
        TicketsStay(ArriveAll(arr + init), last.e);
      }
    }
  }

  // The graph.

  function FirstNamed(arr: seq<Arrival>, id: string): (r: Option<nat>)
    ensures r.Some? ==> r.value < |arr| && IdOf(arr[r.value]) == id
    ensures r.None? ==> forall i :: 0 <= i < |arr| ==> IdOf(arr[i]) != id
  {
    if arr == [] then None
    else if IdOf(arr[|arr| - 1]) == id then Some(|arr| - 1)
    else FirstNamed(arr[..|arr| - 1], id)
  }

  /** The first of `ids` that names one of the arrivals. */
  function Parent(arr: seq<Arrival>, ids: seq<string>): (r: Option<nat>)
    ensures r.Some? ==> r.value < |arr|
  {
    if ids == [] then None
    else if FirstNamed(arr, ids[0]).Some? then FirstNamed(arr, ids[0])
    else Parent(arr, ids[1..])
  }

  predicate HasThread(a: Arrival) {
    a.In? && Given(a.e.threadId)
  }

  /** An earlier arrival `i` that arrival `j` belongs with: the one it replies to or answers, or one with
      the same thread id. */
  predicate Edge(arr: seq<Arrival>, i: nat, j: nat)
    requires i < j < |arr|
  {
    match arr[j]
    case Out(_, answers) => i == answers
    case In(e) =>
      if Given(e.threadId) then HasThread(arr[i]) && arr[i].e.threadId == e.threadId
      else Parent(arr[..j], ReplyIds(e)) == Some(i)
  }

  predicate Adjacent(arr: seq<Arrival>, i: nat, j: nat) {
    i < |arr| && j < |arr| && ((i < j && Edge(arr, i, j)) || (j < i && Edge(arr, j, i)))
  }

  predicate Path(arr: seq<Arrival>, p: seq<nat>) {
    p != [] && (forall k :: 0 <= k < |p| ==> p[k] < |arr|)
    && forall k :: 0 <= k < |p| - 1 ==> Adjacent(arr, p[k], p[k + 1])
  }

  ghost predicate Connected(arr: seq<Arrival>, i: nat, j: nat) {
    exists p: seq<nat> :: Path(arr, p) && p[0] == i && p[|p| - 1] == j
  }

  // What the arrivals keep.

  /** Message ids and event ids are new, no thread id looks like a fresh key, and an answer names an earlier
      message. */
  ghost predicate Orderly(arr: seq<Arrival>) {
    && (forall i, j :: 0 <= i < j < |arr| ==> IdOf(arr[i]) != IdOf(arr[j]))
    && (forall i, j :: 0 <= i < j < |arr| && arr[i].In? && arr[j].In? ==> arr[i].e.eventId != arr[j].e.eventId)
    && (forall i, j :: 0 <= i < |arr| && 0 <= j < |arr| && arr[i].In? && arr[j].In? ==>
          (Given(arr[i].e.threadId) ==> FreshKey(arr[j].e) != arr[i].e.threadId))
    && (forall j :: 0 <= j < |arr| && arr[j].Out? ==> arr[j].answers < j)
  }

  /** Customer upserts do not collide: threading does not look at customers, but a collision refuses a message. */
  predicate AllUpsertsSucceed(arr: seq<Arrival>) {
    arr == [] ||
    var earlier, last := arr[..|arr| - 1], arr[|arr| - 1];
    AllUpsertsSucceed(earlier) && (last.In? ==> NoCollision(ArriveAll(earlier), last.e))
  }

  /** The arrival that stands for the component of `j`: the start of its reply chain or thread. */
  function Leader(arr: seq<Arrival>, j: nat): (i: nat)
    requires j < |arr|
    ensures i <= j
    decreases j
  {
    match arr[j]
    case Out(_, answers) => if answers < j then Leader(arr, answers) else j
    case In(e) =>
      if Given(e.threadId) then FirstOfThread(arr, e.threadId, j)
      else
        match Parent(arr[..j], ReplyIds(e))
        case Some(i) => Leader(arr, i)
        case None => j
  }

  /** The first arrival up to `j` with the given thread id. */
  function FirstOfThread(arr: seq<Arrival>, thread: Option<string>, j: nat): (i: nat)
    requires j < |arr|
    ensures i <= j
    ensures forall k :: 0 <= k < i ==> !(HasThread(arr[k]) && arr[k].e.threadId == thread)
    ensures i == j || (HasThread(arr[i]) && arr[i].e.threadId == thread)
  {
    if j == 0 then 0
    else
      var i := FirstOfThread(arr, thread, j - 1);
      if HasThread(arr[i]) && arr[i].e.threadId == thread then i else j
  }

  lemma {:induction false} LeaderOfPrefix(arr: seq<Arrival>, a: Arrival, j: nat)
    requires j < |arr|
    ensures Leader(arr + [a], j) == Leader(arr, j)
    decreases j
  {
    assert (arr + [a])[..j] == arr[..j];
    match arr[j]
    case Out(_, answers) =>
      if answers < j {
        LeaderOfPrefix(arr, a, answers);
      }
    case In(e) =>
      if Given(e.threadId) {
        FirstOfThreadPrefix(arr, a, e.threadId, j);
      } else if Parent(arr[..j], ReplyIds(e)).Some? {
        LeaderOfPrefix(arr, a, Parent(arr[..j], ReplyIds(e)).value);
      }
  }

  lemma {:induction false} FirstOfThreadPrefix(arr: seq<Arrival>, a: Arrival, thread: Option<string>, j: nat)
    requires j < |arr|
    ensures FirstOfThread(arr + [a], thread, j) == FirstOfThread(arr, thread, j)
  {
    if j > 0 {
      FirstOfThreadPrefix(arr, a, thread, j - 1);
    }
  }

  /** A leader leads itself. */
  lemma {:induction false} LeaderLeadsItself(arr: seq<Arrival>, j: nat)
    requires j < |arr|
    ensures Leader(arr, Leader(arr, j)) == Leader(arr, j)
    decreases j
  {
    match arr[j]
    case Out(_, answers) =>
      if answers < j {
        LeaderLeadsItself(arr, answers);
      }
    case In(e) =>
      if !Given(e.threadId) && Parent(arr[..j], ReplyIds(e)).Some? {
        LeaderLeadsItself(arr, Parent(arr[..j], ReplyIds(e)).value);
      }
  }

  // Stored conversations follow the leaders.

  function KeyOf(e: Event): Option<string> {
    if Given(e.threadId) then e.threadId else FreshKey(e)
  }

  /** The leader of each arrival. */
  function Leaders(arr: seq<Arrival>): (r: seq<nat>)
    ensures |r| == |arr| && forall i :: 0 <= i < |arr| ==> r[i] == Leader(arr, i) <= i
  {
    seq(|arr|, i requires 0 <= i < |arr| => Leader(arr, i))
  }

  /** The key of the conversation each arrival would start; a sent message starts none. */
  function Starters(arr: seq<Arrival>): (r: seq<Option<Option<string>>>)
    ensures |r| == |arr| && forall i :: 0 <= i < |arr| ==> r[i] == if arr[i].In? then Some(KeyOf(arr[i].e)) else None
  {
    seq(|arr|, i requires 0 <= i < |arr| => if arr[i].In? then Some(KeyOf(arr[i].e)) else None)
  }

  lemma {:induction false} LeaderStays(arr: seq<Arrival>, a: Arrival, i: nat)
    requires i < |arr|
    ensures Leaders(arr + [a])[i] == Leaders(arr)[i]
  {
    LeaderOfPrefix(arr, a, i);
  }

  lemma {:induction false} LeadersGrow(arr: seq<Arrival>, a: Arrival)
    ensures Leaders(arr + [a]) == Leaders(arr) + [Leader(arr + [a], |arr|)]
  {
    var before, after, last := Leaders(arr), Leaders(arr + [a]), Leader(arr + [a], |arr|);
    forall i | 0 <= i < |arr| ensures after[i] == before[i] {
      LeaderStays(arr, a, i);
    }
    assert after == before + [last];
  }

  lemma StartersGrow(arr: seq<Arrival>, a: Arrival)
    ensures Starters(arr + [a]) == Starters(arr) + [if a.In? then Some(KeyOf(a.e)) else None]
  {
  }

  /** Conversation `c` was started by a leader. */
  ghost predicate Started(leads: seq<nat>, convs: seq<nat>, c: nat)
    requires |convs| == |leads|
  {
    exists i :: 0 <= i < |leads| && leads[i] == i && convs[i] == c
  }

  /** `convs` is the conversation of each arrival, `keys` the key of each conversation: arrivals are filed
      with their leaders, leaders apart, under the keys they start, and nothing else is a conversation. */
  ghost predicate Led(leads: seq<nat>, starts: seq<Option<Option<string>>>, convs: seq<nat>, keys: seq<Option<string>>) {
    && |convs| == |leads| == |starts|
    && (forall i :: 0 <= i < |leads| ==> leads[i] <= i && convs[i] < |keys| && convs[i] == convs[leads[i]])
    && (forall i :: 0 <= i < |leads| && leads[i] == i ==> starts[i] == Some(keys[convs[i]]))
    && (forall i, j :: 0 <= i < j < |leads| && leads[i] == i && leads[j] == j ==> convs[i] != convs[j])
    && (forall c :: 0 <= c < |keys| ==> Started(leads, convs, c))
  }

  ghost predicate Filed(arr: seq<Arrival>, db: Db) {
    Led(Leaders(arr), Starters(arr), Convs(db.messages), Keys(db.conversations))
  }

  lemma LedJoin(leads: seq<nat>, starts: seq<Option<Option<string>>>, convs: seq<nat>, keys: seq<Option<string>>,
                n: nat, start: Option<Option<string>>)
    requires Led(leads, starts, convs, keys) && n < |leads|
    ensures Led(leads + [n], starts + [start], convs + [convs[n]], keys)
  {
    var leads', convs' := leads + [n], convs + [convs[n]];
    forall c | 0 <= c < |keys| ensures Started(leads', convs', c) {
      assert Started(leads, convs, c);
      var i :| 0 <= i < |leads| && leads[i] == i && convs[i] == c;
      assert leads'[i] == i && convs'[i] == c;
    }
  }

  lemma LedStart(leads: seq<nat>, starts: seq<Option<Option<string>>>, convs: seq<nat>, keys: seq<Option<string>>,
                 key: Option<string>)
    requires Led(leads, starts, convs, keys)
    ensures Led(leads + [|leads|], starts + [Some(key)], convs + [|keys|], keys + [key])
  {
    var leads', convs' := leads + [|leads|], convs + [|keys|];
    forall c | 0 <= c < |keys| + 1 ensures Started(leads', convs', c) {
      if c < |keys| {
        assert Started(leads, convs, c);
        var i :| 0 <= i < |leads| && leads[i] == i && convs[i] == c;
        assert leads'[i] == i && convs'[i] == c;
      } else {
        assert leads'[|leads|] == |leads| && convs'[|leads|] == c;
      }
    }
  }

  function Convs(ms: seq<Message>): (r: seq<nat>)
    ensures |r| == |ms| && forall i :: 0 <= i < |ms| ==> r[i] == ms[i].conversation
  {
    seq(|ms|, i requires 0 <= i < |ms| => ms[i].conversation)
  }

  function Keys(cs: seq<Conversation>): (r: seq<Option<string>>)
    ensures |r| == |cs| && forall i :: 0 <= i < |cs| ==> r[i] == cs[i].key
  {
    seq(|cs|, i requires 0 <= i < |cs| => cs[i].key)
  }

  /** Messages are stored in order of arrival, and only arrivals have receipts. */
  ghost predicate Aligned(arr: seq<Arrival>, db: Db) {
    && |db.messages| == |arr|
    && (forall i :: 0 <= i < |arr| ==> db.messages[i].messageId == IdOf(arr[i]))
    && (forall id :: id in db.receipts ==> exists i :: 0 <= i < |arr| && arr[i].In? && arr[i].e.eventId == id)
  }

  lemma {:induction false} SameFirst(ms: seq<Message>, arr: seq<Arrival>, id: string)
    requires |ms| == |arr| && forall i :: 0 <= i < |arr| ==> ms[i].messageId == IdOf(arr[i])
    ensures FindMessage(ms, id) == FirstNamed(arr, id)
  {
    if arr != [] {
      SameFirst(ms[..|ms| - 1], arr[..|arr| - 1], id);
    }
  }

  lemma {:induction false} SameParent(ms: seq<Message>, arr: seq<Arrival>, ids: seq<string>)
    requires |ms| == |arr| && forall i :: 0 <= i < |arr| ==> ms[i].messageId == IdOf(arr[i])
    ensures FirstStored(ms, ids) == Parent(arr, ids)
  {
    if ids != [] {
      SameFirst(ms, arr, ids[0]);
      SameParent(ms, arr, ids[1..]);
    }
  }

  function Events(arr: seq<Arrival>): (es: seq<Event>)
    ensures forall e :: e in es <==> In(e) in arr
  {
    if arr == [] then []
    else
      assert arr == arr[..|arr| - 1] + [arr[|arr| - 1]];
      Events(arr[..|arr| - 1]) + if arr[|arr| - 1].In? then [arr[|arr| - 1].e] else []
  }

  lemma OrderlyEvents(arr: seq<Arrival>)
    requires Orderly(arr)
    ensures NoThreadClash(Events(arr))
  {
    forall d, e | d in Events(arr) && e in Events(arr)
      ensures Given(d.threadId) ==> FreshKey(e) != d.threadId
    {
      var i :| 0 <= i < |arr| && arr[i] == In(d);
      var j :| 0 <= j < |arr| && arr[j] == In(e);
    }
  }

  lemma FiledJoin(arr: seq<Arrival>, a: Arrival, db: Db, after: Db, n: nat)
    requires |db.messages| == |arr| && Filed(arr, db) && n == Leader(arr + [a], |arr|) < |arr|
    requires Convs(after.messages) == Convs(db.messages) + [Convs(db.messages)[n]]
    requires Keys(after.conversations) == Keys(db.conversations)
    ensures Filed(arr + [a], after)
  {
    LeadersGrow(arr, a);
    StartersGrow(arr, a);
    LedJoin(Leaders(arr), Starters(arr), Convs(db.messages), Keys(db.conversations), n,
            if a.In? then Some(KeyOf(a.e)) else None);
  }

  lemma FiledStart(arr: seq<Arrival>, a: Arrival, db: Db, after: Db)
    requires |db.messages| == |arr| && Filed(arr, db) && a.In? && |arr| == Leader(arr + [a], |arr|)
    requires Convs(after.messages) == Convs(db.messages) + [|db.conversations|]
    requires Keys(after.conversations) == Keys(db.conversations) + [KeyOf(a.e)]
    ensures Filed(arr + [a], after)
  {
    LeadersGrow(arr, a);
    StartersGrow(arr, a);
    LedStart(Leaders(arr), Starters(arr), Convs(db.messages), Keys(db.conversations), KeyOf(a.e));
  }

  lemma LeaderOfSent(arr: seq<Arrival>, id: string, answers: nat)
    requires answers < |arr|
    ensures Leader(arr + [Out(id, answers)], |arr|) == Leader(arr, answers)
  {
    LeaderOfPrefix(arr, Out(id, answers), answers);
  }

  /** The event with a thread id is filed under the conversation its thread's first event started. */
  lemma ThreadIdFollowsLeader(all: seq<Arrival>, arr: seq<Arrival>, e: Event, db: Db)
    requires Valid(db) && |db.messages| == |arr| && Filed(arr, db)
    requires arr + [In(e)] <= all && NoThreadClash(Events(all)) && Given(e.threadId)
    ensures var n := Leader(arr + [In(e)], |arr|);
            Thread(db, e) == if n < |arr| then Joins(db.messages[n].conversation) else Starts(e.threadId)
  {
    var n := Leader(arr + [In(e)], |arr|);
    if n < |arr| {
      ThreadLeaderKey(arr, In(e), n);
      assert db.conversations[db.messages[n].conversation].key == e.threadId;
    } else if FindKey(db.conversations, e.threadId.value).Some? {
      KeyHasAThread(all, arr, e, db, FindKey(db.conversations, e.threadId.value).value);
    }
  }

  lemma ThreadLeaderKey(arr: seq<Arrival>, a: Arrival, n: nat)
    requires HasThread(a) && n == Leader(arr + [a], |arr|) < |arr|
    ensures Leaders(arr)[n] == n && Starters(arr)[n] == Some(a.e.threadId)
  {
    LeaderLeadsItself(arr + [a], |arr|);
    LeaderOfPrefix(arr, a, n);
  }

  lemma KeyHasAThread(all: seq<Arrival>, arr: seq<Arrival>, e: Event, db: Db, c: nat)
    requires |db.messages| == |arr| && Filed(arr, db) && arr + [In(e)] <= all && NoThreadClash(Events(all))
    requires Given(e.threadId) && c < |db.conversations| && db.conversations[c].key == e.threadId
    ensures Leader(arr + [In(e)], |arr|) < |arr|
  {
    assert Started(Leaders(arr), Convs(db.messages), c);
    var i :| 0 <= i < |arr| && Leaders(arr)[i] == i && Convs(db.messages)[i] == c;
    assert Starters(arr)[i] == Some(e.threadId);
    assert all[|arr|] == In(e) && all[i] == arr[i] == In(arr[i].e);
    assert e in Events(all) && arr[i].e in Events(all);
    assert HasThread(arr[i]) && (arr + [In(e)])[i] == arr[i];
  }

  lemma ReplyFollowsLeader(arr: seq<Arrival>, e: Event, db: Db)
    requires Valid(db) && Aligned(arr, db) && Filed(arr, db) && !Given(e.threadId)
    ensures var n := Leader(arr + [In(e)], |arr|);
            Thread(db, e) == if n < |arr| then Joins(db.messages[n].conversation) else Starts(FreshKey(e))
  {
    assert (arr + [In(e)])[..|arr|] == arr;
    SameParent(db.messages, arr, ReplyIds(e));
    if Parent(arr, ReplyIds(e)).Some? {
      var i := Parent(arr, ReplyIds(e)).value;
      LeaderOfPrefix(arr, In(e), i);
      assert Convs(db.messages)[i] == Convs(db.messages)[Leaders(arr)[i]];
    }
  }

  /** The conversation an event is filed under is its leader's. */
  lemma {:induction false} ThreadFollowsLeader(all: seq<Arrival>, arr: seq<Arrival>, e: Event, db: Db)
    requires Valid(db) && Aligned(arr, db) && Filed(arr, db)
    requires arr + [In(e)] <= all && NoThreadClash(Events(all))
    ensures var n := Leader(arr + [In(e)], |arr|);
            Thread(db, e) == if n < |arr| then Joins(db.messages[n].conversation) else Starts(KeyOf(e))
  {
    if Given(e.threadId) {
      ThreadIdFollowsLeader(all, arr, e, db);
    } else {
      ReplyFollowsLeader(arr, e, db);
    }
  }

  /** Every orderly arrival is stored, and filed by its leader. */
  lemma {:induction false} ArrivalsFollowLeaders(all: seq<Arrival>, arr: seq<Arrival>)
    requires Orderly(all) && AllUpsertsSucceed(arr) && arr <= all
    ensures Aligned(arr, ArriveAll(arr))
    ensures Filed(arr, ArriveAll(arr))
    ensures KeysExplained(ArriveAll(arr), Events(all))
  {
    if arr != [] {
      var earlier, a := arr[..|arr| - 1], arr[|arr| - 1];
      assert arr == earlier + [a] && a == all[|earlier|];
      ArrivalsFollowLeaders(all, earlier);
      match a
      case In(e) => InboundFollowsLeader(all, earlier, e, ArriveAll(earlier));
      case Out(id, answers) => OutboundFollowsLeader(all, earlier, id, answers, ArriveAll(earlier));
    }
  }

  lemma OutboundFollowsLeader(all: seq<Arrival>, arr: seq<Arrival>, id: string, answers: nat, db: Db)
    requires Orderly(all) && arr + [Out(id, answers)] <= all && Valid(db)
    requires Aligned(arr, db) && Filed(arr, db)
    requires KeysExplained(db, Events(all))
    ensures var after := Arrive(db, Out(id, answers));
            && Aligned(arr + [Out(id, answers)], after) && Filed(arr + [Out(id, answers)], after)
            && KeysExplained(after, Events(all))
  {
    NewIdIsNotStored(all, arr, Out(id, answers), db);
    OutboundStaysAligned(arr, Out(id, answers), db, Events(all));
    OutboundIsFiled(arr, id, answers, db);
  }

  lemma FiledWithLeader(arr: seq<Arrival>, db: Db, i: nat)
    requires |db.messages| == |arr| && Filed(arr, db) && i < |arr|
    ensures Convs(db.messages)[i] == Convs(db.messages)[Leader(arr, i)]
  {
    var leads := Leaders(arr);
    assert leads[i] == Leader(arr, i);
  }

  lemma SentRows(db: Db, id: string, answers: nat)
    requires Valid(db) && answers < |db.messages| && FindMessage(db.messages, id).None?
    ensures Convs(Arrive(db, Out(id, answers)).messages) == Convs(db.messages) + [Convs(db.messages)[answers]]
  {
  }

  lemma OutboundIsFiled(arr: seq<Arrival>, id: string, answers: nat, db: Db)
    requires Valid(db) && |db.messages| == |arr| && Filed(arr, db)
    requires answers < |arr| && FindMessage(db.messages, id).None?
    ensures Filed(arr + [Out(id, answers)], Arrive(db, Out(id, answers)))
  {
    var after := Arrive(db, Out(id, answers));
    LeaderOfSent(arr, id, answers);
    var n := Leader(arr, answers);
    FiledWithLeader(arr, db, answers);
    SentRows(db, id, answers);
    FiledJoin(arr, Out(id, answers), db, after, n);
  }

  lemma NewIdIsNotStored(all: seq<Arrival>, arr: seq<Arrival>, a: Arrival, db: Db)
    requires Orderly(all) && arr + [a] <= all && Aligned(arr, db)
    ensures FindMessage(db.messages, IdOf(a)).None? && (a.Out? ==> a.answers < |arr|)
  {
    assert all[|arr|] == a;
    assert forall i :: 0 <= i < |arr| ==> all[i] == arr[i];
  }

  lemma OutboundStaysAligned(arr: seq<Arrival>, a: Arrival, db: Db, es: seq<Event>)
    requires Valid(db) && Aligned(arr, db) && a.Out? && a.answers < |db.messages| && FindMessage(db.messages, a.id).None?
    ensures Aligned(arr + [a], Arrive(db, a))
    ensures KeysExplained(db, es) ==> KeysExplained(Arrive(db, a), es)
  {
    var after := Arrive(db, a);
    assert forall m :: m in db.messages ==> m in after.messages;
    forall id | id in after.receipts ensures exists i :: 0 <= i < |arr + [a]| && (arr + [a])[i].In? && (arr + [a])[i].e.eventId == id {
      var i :| 0 <= i < |arr| && arr[i].In? && arr[i].e.eventId == id;
      assert (arr + [a])[i] == arr[i];
    }
  }

  lemma InboundFollowsLeader(all: seq<Arrival>, arr: seq<Arrival>, e: Event, db: Db)
    requires Orderly(all) && arr + [In(e)] <= all && Valid(db) && NoCollision(db, e)
    requires Aligned(arr, db) && Filed(arr, db)
    requires KeysExplained(db, Events(all))
    ensures Accepts(db, e)
    ensures var after := Ingest(db, e);
            && Aligned(arr + [In(e)], after) && Filed(arr + [In(e)], after)
            && KeysExplained(after, Events(all))
  {
    OrderlyEvents(all);
    NewIsAccepted(all, arr, e, db);
    ThreadFollowsLeader(all, arr, e, db);
    AcceptedRows(db, e);
    InboundStaysAligned(arr, e, db);
    var n := Leader(arr + [In(e)], |arr|);
    if n < |arr| {
      FiledJoin(arr, In(e), db, Ingest(db, e), n);
    } else {
      FiledStart(arr, In(e), db, Ingest(db, e));
    }
  }

  /** The message and conversation rows of an accepted event, as their threading columns. */
  lemma AcceptedRows(db: Db, e: Event)
    requires Valid(db) && Accepts(db, e)
    ensures var after := Ingest(db, e);
            match Thread(db, e)
            case Joins(c) => Convs(after.messages) == Convs(db.messages) + [c] && Keys(after.conversations) == Keys(db.conversations)
            case Starts(key) => Convs(after.messages) == Convs(db.messages) + [|db.conversations|]
                                && Keys(after.conversations) == Keys(db.conversations) + [key]
  {
  }

  lemma InboundStaysAligned(arr: seq<Arrival>, e: Event, db: Db)
    requires Valid(db) && Aligned(arr, db) && Accepts(db, e)
    ensures Aligned(arr + [In(e)], Ingest(db, e))
  {
    var after := Ingest(db, e);
    var more := arr + [In(e)];
    ReceiptKeys(db, e);
    forall id | id in after.receipts ensures exists i :: 0 <= i < |more| && more[i].In? && more[i].e.eventId == id {
      if id in db.receipts {
        var i :| 0 <= i < |arr| && arr[i].In? && arr[i].e.eventId == id;
        assert more[i] == arr[i];
      } else {
        assert id in after.receipts.Keys;
        assert more[|arr|].e.eventId == id;
      }
    }
  }

  lemma NewIsAccepted(all: seq<Arrival>, arr: seq<Arrival>, e: Event, db: Db)
    requires Orderly(all) && arr + [In(e)] <= all && Valid(db) && NoCollision(db, e) && Aligned(arr, db)
    requires KeysExplained(db, Events(all))
    ensures Accepts(db, e)
    ensures KeysExplained(Ingest(db, e), Events(all))
  {
    OrderlyEvents(all);
    assert all[|arr|] == In(e);
    assert forall i :: 0 <= i < |arr| ==> all[i] == arr[i];
    AcceptedExactly(db, Events(all), e);
  }

  // Leaders are components.

  lemma EdgeKeepsLeader(arr: seq<Arrival>, i: nat, j: nat)
    requires Orderly(arr) && i < j < |arr| && Edge(arr, i, j)
    ensures Leader(arr, i) == Leader(arr, j)
  {
    match arr[j]
    case Out(_, _) =>
    case In(e) =>
      if Given(e.threadId) {
        SameThreadSameFirst(arr, e.threadId, i, j);
      }
  }

  lemma {:induction false} SameThreadSameFirst(arr: seq<Arrival>, thread: Option<string>, i: nat, j: nat)
    requires i <= j < |arr| && HasThread(arr[i]) && arr[i].e.threadId == thread
    ensures FirstOfThread(arr, thread, i) == FirstOfThread(arr, thread, j)
  {
    if i < j {
      SameThreadSameFirst(arr, thread, i, j - 1);
    }
  }

  lemma AdjacentKeepsLeader(arr: seq<Arrival>, i: nat, j: nat)
    requires Orderly(arr) && Adjacent(arr, i, j)
    ensures Leader(arr, i) == Leader(arr, j)
  {
    if i < j {
      EdgeKeepsLeader(arr, i, j);
    } else {
      EdgeKeepsLeader(arr, j, i);
    }
  }

  lemma {:induction false} PathKeepsLeader(arr: seq<Arrival>, p: seq<nat>)
    requires Orderly(arr) && Path(arr, p)
    ensures Leader(arr, p[0]) == Leader(arr, p[|p| - 1])
  {
    if |p| > 1 {
      var q := p[..|p| - 1];
      forall k | 0 <= k < |q| - 1 ensures Adjacent(arr, q[k], q[k + 1]) {
        assert Adjacent(arr, p[k], p[k + 1]);
      }
      PathKeepsLeader(arr, q);
      assert Adjacent(arr, p[|p| - 2], p[|p| - 1]);
      AdjacentKeepsLeader(arr, p[|p| - 2], p[|p| - 1]);
    }
  }

  /** A path from an arrival to its leader. */
  lemma {:induction false} PathToLeader(arr: seq<Arrival>, j: nat) returns (p: seq<nat>)
    requires Orderly(arr) && j < |arr|
    ensures Path(arr, p) && p[0] == j && p[|p| - 1] == Leader(arr, j)
    decreases j
  {
    if Leader(arr, j) == j {
      return [j];
    }
    match arr[j] {
      case Out(_, answers) =>
        var q := PathToLeader(arr, answers);
        p := [j] + q;
        PrependToPath(arr, j, q);
      case In(e) =>
        if Given(e.threadId) {
          var first := FirstOfThread(arr, e.threadId, j);
          p := [j, first];
          assert Edge(arr, first, j);
        } else {
          var i := Parent(arr[..j], ReplyIds(e)).value;
          var q := PathToLeader(arr, i);
          p := [j] + q;
          assert Edge(arr, i, j);
          PrependToPath(arr, j, q);
        }
    }
  }

  lemma PrependToPath(arr: seq<Arrival>, j: nat, q: seq<nat>)
    requires Path(arr, q) && j < |arr| && Adjacent(arr, j, q[0])
    ensures Path(arr, [j] + q)
  {
    var p := [j] + q;
    forall k | 0 <= k < |p| - 1 ensures Adjacent(arr, p[k], p[k + 1]) {
      if k > 0 {
        assert Adjacent(arr, q[k - 1], q[k]);
      }
    }
  }

  lemma {:induction false} JoinPaths(arr: seq<Arrival>, p: seq<nat>, q: seq<nat>) returns (r: seq<nat>)
    requires Path(arr, p) && Path(arr, q) && p[|p| - 1] == q[|q| - 1]
    ensures Path(arr, r) && r[0] == p[0] && r[|r| - 1] == q[0]
    decreases |q|
  {
    if |q| == 1 {
      r := p;
    } else {
      // Walk q's last step backwards at the end of p.
      assert Adjacent(arr, q[|q| - 2], q[|q| - 1]);
      var p' := p + [q[|q| - 2]];
      forall k | 0 <= k < |p'| - 1 ensures Adjacent(arr, p'[k], p'[k + 1]) {
        if k < |p| - 1 {
          assert Adjacent(arr, p[k], p[k + 1]);
        }
      }
      var q' := q[..|q| - 1];
      assert forall k :: 0 <= k < |q'| - 1 ==> Adjacent(arr, q'[k], q'[k + 1]) by {
        assert forall k :: 0 <= k < |q'| - 1 ==> Adjacent(arr, q[k], q[k + 1]);
      }
      r := JoinPaths(arr, p', q');
    }
  }

  lemma {:induction false} ConnectedMeansSameLeader(arr: seq<Arrival>, i: nat, j: nat)
    requires Orderly(arr) && i < |arr| && j < |arr|
    ensures Connected(arr, i, j) <==> Leader(arr, i) == Leader(arr, j)
  {
    if Connected(arr, i, j) {
      var p: seq<nat> :| Path(arr, p) && p[0] == i && p[|p| - 1] == j;
      PathKeepsLeader(arr, p);
    }
    if Leader(arr, i) == Leader(arr, j) {
      var p := PathToLeader(arr, i);
      var q := PathToLeader(arr, j);
      var r := JoinPaths(arr, p, q);
      assert Path(arr, r) && r[0] == i && r[|r| - 1] == j;
    }
  }

  /** Orderly arrivals are all stored, and two of them share a conversation exactly when replies and thread
      ids connect them. */
  lemma {:induction false} ConversationsAreComponents(arr: seq<Arrival>, i: nat, j: nat)
    requires Orderly(arr) && AllUpsertsSucceed(arr) && i < |arr| && j < |arr|
    ensures |ArriveAll(arr).messages| == |arr|
    ensures ArriveAll(arr).messages[i].conversation == ArriveAll(arr).messages[j].conversation <==> Connected(arr, i, j)
  {
    ArrivalsFollowLeaders(arr, arr);
    ConnectedMeansSameLeader(arr, i, j);
    LeaderLeadsItself(arr, i);
    LeaderLeadsItself(arr, j);
    var leads, convs := Leaders(arr), Convs(ArriveAll(arr).messages);
    assert convs[i] == convs[leads[i]] && convs[j] == convs[leads[j]];
    assert leads[leads[i]] == leads[i] && leads[leads[j]] == leads[j];
  }
}
