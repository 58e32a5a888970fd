/** Delivery jobs that run one after another: the job itself in place, its attempt budget, and what
    an operator's replay and the provider's callbacks do between jobs. */
module DeliveryJobs {
  import opened Prelude
  import opened OutboundMessages

  /** What the provider, or the connection check before it, answers to a send. */
  datatype Answer =
    | Accepts(providerMessageId: string, delivered: bool)
    | Refuses(retryable: bool, code: string)

  datatype Outcome = Skipped | Delayed | AlreadyClaimed | AttemptExists | SentOut | GivenUp(retried: bool)

  /** One job from load to finish with nothing in between. */
  function Job(t: Tables, now: Time, job: nat, leaseMs: Time, baseMs: int, answer: Answer): (Tables, Outcome) {
    if Terminal(t.row.status) then (t, Skipped)
    else if !Due(t.row.nextAttemptAt, now) then (t, Delayed)
    else if !ClaimGuard(t.row, now) then (t, AlreadyClaimed)
    else
      var attempt := t.row.attemptCount + 1;
      var claimed := t.(row := Claimed(t.row, job, now, leaseMs, attempt));
      match OpenAttempt(claimed, attempt)
      case None => (claimed, AttemptExists)
      case Some(begun) => Finish(begun, attempt, now, baseMs, answer)
  }

  function Finish(t: Tables, attempt: nat, now: Time, baseMs: int, answer: Answer): (Tables, Outcome) {
    match answer
    case Accepts(id, delivered) =>
      (match CommitAccepted(t, attempt, t.row.textBody, id, now, delivered)
       case Some(sent) => (sent, SentOut)
       case None => (CommitRejected(t, attempt, false, now, 0, "UNKNOWN"), GivenUp(false)))
    case Refuses(retryable, code) =>
      var canRetry := CanRetry(retryable, attempt, t.row.maxAttempts);
      (CommitRejected(t, attempt, canRetry, now, BackoffDelay(baseMs, attempt), code), GivenUp(canRetry))
  }

  /** The rows of one outbound message, changed in place by the worker and the API. */
  class DeliveryStore {
    var row: Row
    var attempts: map<nat, AttemptOutcome>
    var failures: seq<nat>
    var externals: seq<string>

    ghost function View(): Tables
      reads this
    {
      Tables(row, attempts, failures, externals)
    }

    constructor (textBody: string, maxAttempts: nat)
      ensures View() == Tables(Fresh(textBody, maxAttempts), map[], [], [])
    {
      row := Fresh(textBody, maxAttempts);
      attempts, failures, externals := map[], [], [];
    }

    method SendOutboundMessage(now: Time, job: nat, leaseMs: Time, baseMs: int, answer: Answer) returns (outcome: Outcome)
      modifies this
      ensures (View(), outcome) == Job(old(View()), now, job, leaseMs, baseMs, answer)
    {
      if Terminal(row.status) {
        return Skipped;
      }
      if !Due(row.nextAttemptAt, now) {
        return Delayed;
      }
      var attempt := row.attemptCount + 1;
      if !ClaimGuard(row, now) {
        return AlreadyClaimed;
      }
      row := row.(status := Processing, leaseOwner := Some(job), leaseExpiresAt := Some(now + leaseMs),
                  attemptCount := attempt);
      if attempt in attempts {
        return AttemptExists;
      }
      attempts := attempts[attempt := Unknown];
      match answer {
        case Accepts(id, delivered) =>
          if externals != [] {
            outcome := Fail(attempt, false, now, 0, "UNKNOWN");
          } else {
            externals := externals + [row.textBody];
            row := row.(providerMessageId := Some(id), status := if delivered then Delivered else Sent,
                        sentAt := Some(now), deliveredAt := if delivered then Some(now) else None,
                        leaseOwner := None, leaseExpiresAt := None, nextAttemptAt := None, lastErrorCode := None);
            attempts := attempts[attempt := Succeeded];
            outcome := SentOut;
          }
        case Refuses(retryable, code) =>
          var canRetry := CanRetry(retryable, attempt, row.maxAttempts);
          outcome := Fail(attempt, canRetry, now, BackoffDelay(baseMs, attempt), code);
      }
    }

    /** The catch block's transaction. */
    method Fail(attempt: nat, canRetry: bool, now: Time, delay: Time, code: string) returns (outcome: Outcome)
      modifies this
      ensures View() == CommitRejected(old(View()), attempt, canRetry, now, delay, code)
      ensures outcome == GivenUp(canRetry)
    {
      attempts := attempts[attempt := if canRetry then RetryableFailure else PermanentFailure];
      row := row.(status := if canRetry then RetryScheduled else DeadLetter,
                  failedAt := if canRetry then None else Some(now),
                  nextAttemptAt := if canRetry then Some(now + delay) else None,
                  leaseOwner := None, leaseExpiresAt := None, lastErrorCode := Some(code));
      if !canRetry {
        failures := failures + [attempt];
      }
      outcome := GivenUp(canRetry);
    }

    method ReplayOutboundMessage(now: Time) returns (ok: bool)
      modifies this`row
      ensures ok == ReplayAllowed(old(row).status)
      ensures row == if ok then Replayed(old(row), now) else old(row)
    {
      if row.status == Sent || row.status == Delivered || row.status == Cancelled {
        return false;
      }
      row := row.(status := Pending, nextAttemptAt := Some(now), leaseOwner := None, leaseExpiresAt := None,
                  lastErrorCode := None);
      return true;
    }

    method CancelOutboundMessage(now: Time) returns (ok: bool)
      modifies this`row
      ensures ok == CancelAllowed(old(row).status)
      ensures row == if ok then CancelledRow(old(row), now) else old(row)
    {
      if row.status == Sent || row.status == Delivered || row.status == DeadLetter {
        return false;
      }
      row := row.(status := Cancelled, failedAt := Some(now), leaseOwner := None, leaseExpiresAt := None);
      return true;
    }

    /** `processDeliveryCallback`: false when no row has the callback's message id, or when it is ignored. */
    method ProcessDeliveryCallback(providerMessageId: string, cb: CallbackStatus, occurredAt: Time) returns (applied: bool)
      modifies this`row
      ensures applied == (old(row).providerMessageId == Some(providerMessageId) && !CallbackIgnored(old(row), cb))
      ensures row == if applied then CalledBack(old(row), cb, occurredAt) else old(row)
    {
      if row.providerMessageId != Some(providerMessageId) {
        return false;
      }
      var delivered := cb == CbDelivered;
      var failed := cb in {CbBounced, CbRejected, CbFailed};
      var next := if delivered then Delivered else if failed then Failed else Sent;
      if row.status == Delivered || (row.status == Sent && next == Sent) {
        return false;
      }
      row := row.(status := next,
                  deliveredAt := if delivered then Some(occurredAt) else row.deliveredAt,
                  failedAt := if failed then Some(occurredAt) else row.failedAt,
                  lastErrorCode := if failed then Some(UpperCase(cb)) else None);
      return true;
    }
  }

  // Backoff.

  lemma {:induction false} Pow2Grows(m: nat, n: nat)
    requires m <= n
    ensures 1 <= Pow2(m) <= Pow2(n)
  {
    if n == 0 {
    } else if m == n {
      Pow2Grows(m - 1, m - 1);
    } else {
      Pow2Grows(m, n - 1);
    }
  }

  lemma ProductGrows(base: nat, m: nat, n: nat)
    requires m <= n
    ensures base * m <= base * n
  {
  }

  /** Delays stay within [120, 72000] ms and never shrink from one attempt to the next. */
  lemma BackoffBounds(baseMs: int, m: nat, n: nat)
    requires m <= n
    ensures 120 <= BackoffDelay(baseMs, m) <= BackoffDelay(baseMs, n) <= 72_000
  {
    var base := Max(baseMs, 100);
    var j, k := Max(m - 1, 0), Max(n - 1, 0);
    Pow2Grows(0, j);
    Pow2Grows(j, k);
    ProductGrows(base, 1, Pow2(j));
    ProductGrows(base, Pow2(j), Pow2(k));
  }

  /** The delay before its jitter: the base, of at least 100 ms, doubled after each attempt but the first and
      never above a minute. */
  function Capped(baseMs: int, n: nat): nat {
    if n <= 1 then Min(Max(baseMs, 100), 60_000) else Min(2 * Capped(baseMs, n - 1), 60_000)
  }

  lemma {:induction false} CappedIsPower(baseMs: int, n: nat)
    ensures Capped(baseMs, n) == Min(Max(baseMs, 100) * Pow2(Max(n - 1, 0)), 60_000)
  {
    if n > 1 {
      CappedIsPower(baseMs, n - 1);
      var base, p := Max(baseMs, 100), Pow2(n - 2);
      assert Pow2(n - 1) == 2 * p;
      DoubledProduct(base, p);
    }
  }

  lemma DoubledProduct(base: nat, p: nat)
    ensures base * (2 * p) == 2 * (base * p)
  {
  }

  /** The delay after attempt `n` is the base delay, doubled `n - 1` times within its cap, and a fifth more. */
  lemma BackoffDoubles(baseMs: int, n: nat)
    ensures BackoffDelay(baseMs, n) == Capped(baseMs, n) + Capped(baseMs, n) / 5
    ensures Capped(baseMs, 0) == Capped(baseMs, 1) == if baseMs < 100 then 100 else if baseMs < 60_000 then baseMs else 60_000
    ensures n >= 1 ==> Capped(baseMs, n + 1) == if Capped(baseMs, n) < 30_000 then 2 * Capped(baseMs, n) else 60_000
  {
    CappedIsPower(baseMs, n);
  }

  /** The sum of the waits after attempts 1 to `n`. */
  function TotalWait(baseMs: int, n: nat): nat {
    if n == 0 then 0 else TotalWait(baseMs, n - 1) + BackoffDelay(baseMs, n)
  }

  lemma {:induction false} TotalWaitBounds(baseMs: int, n: nat)
    ensures 120 * n <= TotalWait(baseMs, n) <= 72_000 * n
  {
    if n > 0 {
      TotalWaitBounds(baseMs, n - 1);
      BackoffBounds(baseMs, n, n);
    }
  }

  // The attempt budget.

  /** Jobs at the given times, every one refused with a retryable error. */
  function Retrying(t: Tables, times: seq<Time>, job: nat, leaseMs: Time, baseMs: int, code: string): Tables {
    if times == [] then t
    else Job(Retrying(t, times[..|times| - 1], job, leaseMs, baseMs, code), times[|times| - 1], job, leaseMs, baseMs,
             Refuses(true, code)).0
  }

  /** The jobs that found the message due, and the time of the last of them; the others were put off. */
  function DueTimes(t: Tables, times: seq<Time>, job: nat, leaseMs: Time, baseMs: int, code: string): (due: seq<Time>)
    ensures |due| <= |times|
  {
    if times == [] then []
    else
      var earlier, last := times[..|times| - 1], times[|times| - 1];
      DueTimes(t, earlier, job, leaseMs, baseMs, code)
      + if Due(Retrying(t, earlier, job, leaseMs, baseMs, code).row.nextAttemptAt, last) then [last] else []
  }

  /** The tables after `n` refused attempts of a message that allows `max`. */
  ghost predicate Spent(t: Tables, text: string, n: nat, max: nat) {
    && t.row.textBody == text && t.row.attemptCount == n <= max && t.row.maxAttempts == max
    && t.row.leaseExpiresAt.None?
    && t.row.status == (if n == max then DeadLetter else if n == 0 then Pending else RetryScheduled)
    && (forall k :: k in t.attempts <==> 1 <= k <= n)
    && (forall k :: k in t.attempts ==>
          t.attempts[k] == if k == max then PermanentFailure else RetryableFailure)
    && t.failures == (if n == max then [max] else [])
    && t.externals == []
  }

  lemma OneMoreRefusal(t: Tables, text: string, n: nat, max: nat, now: Time, job: nat, leaseMs: Time, baseMs: int, code: string)
    requires Spent(t, text, n, max) && n < max && Due(t.row.nextAttemptAt, now)
    ensures var after := Job(t, now, job, leaseMs, baseMs, Refuses(true, code)).0;
            && Spent(after, text, n + 1, max)
            && (n + 1 < max ==> after.row.nextAttemptAt == Some(now + Capped(baseMs, n + 1) + Capped(baseMs, n + 1) / 5))
  {
    BackoffDoubles(baseMs, n + 1);
  }

  /** A job that comes too early changes nothing. */
  lemma EarlyJobIsPutOff(t: Tables, now: Time, job: nat, leaseMs: Time, baseMs: int, code: string)
    requires !Due(t.row.nextAttemptAt, now)
    ensures Job(t, now, job, leaseMs, baseMs, Refuses(true, code)).0 == t
  {
  }

  /** A fresh message whose jobs all fail with retryable errors, at whatever times they come, makes one
      attempt for each job that finds it due, up to exactly `max`, waits the doubling delay and a fifth of it
      after each but the last, and ends in DEAD_LETTER with one operational failure. */
  lemma {:induction false} AttemptBudget(text: string, max: nat, times: seq<Time>, job: nat, leaseMs: Time, baseMs: int, code: string)
    requires max >= 1
    ensures var t := Retrying(Tables(Fresh(text, max), map[], [], []), times, job, leaseMs, baseMs, code);
            var due := DueTimes(Tables(Fresh(text, max), map[], [], []), times, job, leaseMs, baseMs, code);
            && Spent(t, text, Min(|due|, max), max)
            && (0 < |due| < max ==> t.row.nextAttemptAt == Some(due[|due| - 1] + Capped(baseMs, |due|) + Capped(baseMs, |due|) / 5))
  {
    if times != [] {
      var first := Tables(Fresh(text, max), map[], [], []);
      var earlier, last := times[..|times| - 1], times[|times| - 1];
      AttemptBudget(text, max, earlier, job, leaseMs, baseMs, code);
      var t, n := Retrying(first, earlier, job, leaseMs, baseMs, code), |DueTimes(first, earlier, job, leaseMs, baseMs, code)|;
      if !Due(t.row.nextAttemptAt, last) {
        EarlyJobIsPutOff(t, last, job, leaseMs, baseMs, code);
      } else if n < max {
        OneMoreRefusal(t, text, n, max, last, job, leaseMs, baseMs, code);
      }
    }
  }

  /** Replaying an exhausted message buys exactly one more attempt: one refused job gives it up for
      good, and the job after that finds nothing to do. */
  lemma ReplayBuysOneAttempt(text: string, max: nat, t: Tables, now: Time, job: nat, leaseMs: Time, baseMs: int, code: string)
    requires max >= 1 && Spent(t, text, max, max)
    ensures ReplayAllowed(t.row.status)
    ensures var again := Job(t.(row := Replayed(t.row, now)), now, job, leaseMs, baseMs, Refuses(true, code)).0;
            && again.row.status == DeadLetter && again.row.attemptCount == max + 1
            && again.attempts == t.attempts[max + 1 := PermanentFailure]
            && again.failures == [max, max + 1]
            && forall later: Time, answer: Answer :: Job(again, later, job, leaseMs, baseMs, answer) == (again, Skipped)
  {
  }

  // Callbacks.

  /** A callback as delivered: its event id is what the receipt deduplicates on. */
  datatype Event = Event(id: string, cb: CallbackStatus, occurredAt: Time)

  /** The callbacks whose event id was not received before, in order of arrival. */
  function FirstReceipts(events: seq<Event>): seq<Event> {
    if events == [] then []
    else
      var earlier := events[..|events| - 1];
      var last := events[|events| - 1];
      if exists e :: e in earlier && e.id == last.id then FirstReceipts(earlier) else FirstReceipts(earlier) + [last]
  }

  function Apply(row: Row, events: seq<Event>): Row {
    if events == [] then row
    else CalledBack(Apply(row, events[..|events| - 1]), events[|events| - 1].cb, events[|events| - 1].occurredAt)
  }

  /** The row after receiving `events` with repeats answered as duplicates. */
  function Receive(row: Row, events: seq<Event>): Row {
    Apply(row, FirstReceipts(events))
  }

  /** Redelivery repeats the event: an id stands for one callback. */
  predicate IdsNameEvents(events: seq<Event>) {
    forall d, e :: d in events && e in events && d.id == e.id ==> d == e
  }

  /** Suppressing repeats keeps the same events, once each. */
  lemma {:induction false} FirstReceiptsKeepEvents(events: seq<Event>)
    requires IdsNameEvents(events)
    ensures forall e :: e in FirstReceipts(events) <==> e in events
    ensures Distinct(FirstReceipts(events))
  {
    if events != [] {
      var earlier := events[..|events| - 1];
      assert events == earlier + [events[|events| - 1]];
      FirstReceiptsKeepEvents(earlier);
    }
  }

  /** Whether a list has a `delivered` callback, and the first one. */
  predicate HasDelivered(events: seq<Event>) {
    events != [] && (HasDelivered(events[..|events| - 1]) || events[|events| - 1].cb == CbDelivered)
  }

  function FirstDelivered(events: seq<Event>): Event
    requires HasDelivered(events)
  {
    if HasDelivered(events[..|events| - 1]) then FirstDelivered(events[..|events| - 1]) else events[|events| - 1]
  }

  lemma {:induction false} HasDeliveredMeans(events: seq<Event>)
    ensures HasDelivered(events) <==> exists e :: e in events && e.cb == CbDelivered
  {
    if events != [] {
      HasDeliveredMeans(events[..|events| - 1]);
      assert events == events[..|events| - 1] + [events[|events| - 1]];
    }
  }

  lemma OneCallback(row: Row, cb: CallbackStatus, at: Time)
    ensures var after := CalledBack(row, cb, at);
            && (row.status == Delivered ==> after == row)
            && (row.status in {Sent, Failed} && cb != CbDelivered ==>
                  after.deliveredAt == row.deliveredAt && after.status == Requested(cb) && after.status in {Sent, Failed})
            && (row.status in {Sent, Failed} && cb == CbDelivered ==>
                  after.status == Delivered && after.deliveredAt == Some(at))
  {
  }

  lemma {:induction false} ApplyToSentRow(row: Row, events: seq<Event>)
    requires row.status == Sent
    ensures HasDelivered(events) ==>
              Apply(row, events).status == Delivered
              && Apply(row, events).deliveredAt == Some(FirstDelivered(events).occurredAt)
    ensures !HasDelivered(events) ==>
              Apply(row, events).deliveredAt == row.deliveredAt
              && Apply(row, events).status in {Sent, Failed}
              && Apply(row, events).status == if events == [] then Sent else Requested(events[|events| - 1].cb)
  {
    if events != [] {
      var earlier, last := events[..|events| - 1], events[|events| - 1];
      ApplyToSentRow(row, earlier);
      OneCallback(Apply(row, earlier), last.cb, last.occurredAt);
    }
  }

  /** Callback confluence. For a sent row that no job is processing: two arrival orders of the same
      callbacks, repeated in any way, both end in DELIVERED when one of them says so, each dated by the
      first such callback it received; otherwise each ends in the status its last new callback asks for. */
  lemma CallbacksConfluent(row: Row, xs: seq<Event>, ys: seq<Event>)
    requires row.status == Sent
    requires IdsNameEvents(xs) && IdsNameEvents(ys) && forall e :: e in xs <==> e in ys
    ensures HasDelivered(xs) ==>
              && Receive(row, xs).status == Receive(row, ys).status == Delivered
              && HasDelivered(FirstReceipts(xs))
              && Receive(row, xs).deliveredAt == Some(FirstDelivered(FirstReceipts(xs)).occurredAt)
    ensures !HasDelivered(xs) ==>
              Receive(row, xs).status ==
                (if FirstReceipts(xs) == [] then Sent else Requested(FirstReceipts(xs)[|FirstReceipts(xs)| - 1].cb))
  {
    FirstReceiptsKeepEvents(xs);
    FirstReceiptsKeepEvents(ys);
    HasDeliveredMeans(xs);
    HasDeliveredMeans(FirstReceipts(xs));
    HasDeliveredMeans(FirstReceipts(ys));
    ApplyToSentRow(row, FirstReceipts(xs));
    ApplyToSentRow(row, FirstReceipts(ys));
  }
}
