/** The fixed-window counter in Redis, shared by all service instances, and what a caller is told.
    Times are Redis's own clock. */
module RateLimit {
  import opened Prelude

  type Positive = n: nat | n >= 1 witness 1

  /** A counter and the instant its key expires. */
  datatype Window = Window(hits: Positive, expiresAt: int)

  /** One run of the script. Whether a key still exists at the very instant it expires depends on the
      Redis version, so either may happen. */
  datatype Request = Request(time: int, keptAtExpiry: bool)

  predicate Live(entry: Option<Window>, r: Request) {
    && entry.Some?
    && (r.time < entry.value.expiresAt || (r.time == entry.value.expiresAt && r.keptAtExpiry))
  }

  function Hits(entry: Option<Window>, r: Request): Positive {
    if Live(entry, r) then entry.value.hits + 1 else 1
  }

  /** The key after the script: expiring a key at once deletes it. */
  function Counted(entry: Option<Window>, r: Request, windowMs: int): Option<Window> {
    if Live(entry, r) then Some(Window(entry.value.hits + 1, entry.value.expiresAt))
    else if windowMs <= 0 then None
    else Some(Window(1, r.time + windowMs))
  }

  /** Redis's answer for the time to live; -2 stands for a key that is gone. */
  function Ttl(entry: Option<Window>, r: Request): int {
    if entry.None? then -2 else entry.value.expiresAt - r.time
  }

  // Traces of requests on one key.

  function After(requests: seq<Request>, windowMs: int): Option<Window> {
    if requests == [] then None
    else Counted(After(requests[..|requests| - 1], windowMs), requests[|requests| - 1], windowMs)
  }

  /** The counter value that request `i` was told. */
  function HitsOf(requests: seq<Request>, windowMs: int, i: nat): Positive
    requires i < |requests|
  {
    Hits(After(requests[..i], windowMs), requests[i])
  }

  predicate Allowed(requests: seq<Request>, windowMs: int, limit: int, i: nat)
    requires i < |requests|
  {
    HitsOf(requests, windowMs, i) <= limit
  }

  predicate Monotone(requests: seq<Request>) {
    forall i, j :: 0 <= i < j < |requests| ==> requests[i].time <= requests[j].time
  }

  /** How many requests in the half-open interval of length `windowMs` from `from` were allowed. */
  function AllowedWithin(requests: seq<Request>, windowMs: int, limit: int, from: int): nat {
    if requests == [] then 0
    else
      var earlier, last := requests[..|requests| - 1], requests[|requests| - 1];
      AllowedWithin(earlier, windowMs, limit, from)
      + if from <= last.time < from + windowMs && Hits(After(earlier, windowMs), last) <= limit then 1 else 0
  }

  /** What is known after a prefix of the trace, by where the current window started. */
  predicate Bounded(entry: Option<Window>, last: int, count: nat, windowMs: int, limit: int, from: int) {
    && entry.Some?
    && var start := entry.value.expiresAt - windowMs;
       var passed := if entry.value.hits < limit then entry.value.hits else limit;
       && start <= last
       && (last < from ==> count == 0)
       && (start < from ==> count <= passed - 1)
       && (from <= start < from + windowMs ==> count <= limit - 1 + passed)
       && count <= 2 * limit - 1
  }

  lemma {:induction false} TraceIsBounded(requests: seq<Request>, windowMs: int, limit: int, from: int)
    requires requests != [] && Monotone(requests) && windowMs > 0 && limit > 0
    ensures Bounded(After(requests, windowMs), requests[|requests| - 1].time,
                    AllowedWithin(requests, windowMs, limit, from), windowMs, limit, from)
  {
    var earlier := requests[..|requests| - 1];
    if earlier != [] {
      TraceIsBounded(earlier, windowMs, limit, from);
      assert earlier[|earlier| - 1].time <= requests[|requests| - 1].time;
    }
  }

  lemma {:induction false} NothingAllowed(requests: seq<Request>, windowMs: int, limit: int, from: int)
    requires windowMs <= 0 || limit <= 0
    ensures AllowedWithin(requests, windowMs, limit, from) == 0
  {
    if requests != [] {
      NothingAllowed(requests[..|requests| - 1], windowMs, limit, from);
    }
  }

  /** Sliding bound: any half-open interval as long as the window lets through at most 2 * limit - 1
      requests, one fewer than two full windows: a window that reaches into the interval from before it
      has spent its first request outside. */
  lemma SlidingBound(requests: seq<Request>, windowMs: int, limit: int, from: int)
    requires Monotone(requests)
    ensures AllowedWithin(requests, windowMs, limit, from) <= if limit <= 0 then 0 else 2 * limit - 1
  {
    if windowMs <= 0 || limit <= 0 {
      NothingAllowed(requests, windowMs, limit, from);
    } else if requests != [] {
      TraceIsBounded(requests, windowMs, limit, from);
    }
  }

  // The bound is attained.

  /** `n` requests at one instant, arriving after a key that expires then is gone. */
  function Burst(time: int, n: nat): (r: seq<Request>)
    ensures |r| == n && forall i :: 0 <= i < n ==> r[i] == Request(time, false)
  {
    seq(n, _ => Request(time, false))
  }

  lemma {:induction false} BurstAllowed(before: seq<Request>, time: int, n: nat, windowMs: int, limit: int, from: int, hits: nat)
    requires n > 0 && windowMs > 0 && from <= time < from + windowMs
    requires hits + n <= limit
    requires if hits == 0 then !Live(After(before, windowMs), Request(time, false))
             else After(before, windowMs).Some? && After(before, windowMs).value.hits == hits
                  && time < After(before, windowMs).value.expiresAt
    ensures var trace := before + Burst(time, n);
            && AllowedWithin(trace, windowMs, limit, from) == AllowedWithin(before, windowMs, limit, from) + n
            && After(trace, windowMs).Some? && After(trace, windowMs).value.hits == hits + n
            && After(trace, windowMs).value.expiresAt ==
                 (if hits == 0 then time + windowMs else After(before, windowMs).value.expiresAt)
  {
    var trace := before + Burst(time, n);
    assert trace[..|trace| - 1] == before + Burst(time, n - 1);
    if n == 1 {
      assert before + Burst(time, 0) == before;
    } else {
      BurstAllowed(before, time, n - 1, windowMs, limit, from, hits);
    }
  }

  /** One request, then the rest of its window's limit a millisecond before it ends, then a full limit. */
  function WorstTrace(windowMs: nat, limit: nat): seq<Request>
    requires windowMs >= 2 && limit >= 1
  {
    [Request(0, false)] + Burst(windowMs - 1, limit - 1) + Burst(windowMs, limit)
  }

  lemma SlidingBoundIsAttained(windowMs: nat, limit: nat)
    requires windowMs >= 2 && limit >= 1
    ensures Monotone(WorstTrace(windowMs, limit))
    ensures AllowedWithin(WorstTrace(windowMs, limit), windowMs, limit, windowMs - 1) == 2 * limit - 1
  {
    var first := [Request(0, false)];
    assert first[..0] == [];
    assert After(first, windowMs) == Some(Window(1, windowMs));
    var second := first + Burst(windowMs - 1, limit - 1);
    if limit > 1 {
      BurstAllowed(first, windowMs - 1, limit - 1, windowMs, limit, windowMs - 1, 1);
    } else {
      assert second == first;
    }
    BurstAllowed(second, windowMs, limit, windowMs, limit, windowMs - 1, 0);
  }

  // Windows.

  /** Requests that see the same expiry share a window; otherwise the later one's window starts no earlier
      than the other's ends. No request, allowed or rejected, moves the end of its window. */
  lemma {:induction false} WindowsNeverOverlap(requests: seq<Request>, windowMs: int, i: nat)
    requires Monotone(requests) && windowMs > 0 && i < |requests|
    ensures After(requests[..i + 1], windowMs).Some? && After(requests, windowMs).Some?
    ensures var mine, last := After(requests[..i + 1], windowMs).value.expiresAt, After(requests, windowMs).value.expiresAt;
            mine == last || mine <= last - windowMs
  {
    if i == |requests| - 1 {
      assert requests[..i + 1] == requests;
    } else {
      var earlier := requests[..|requests| - 1];
      assert earlier[..i + 1] == requests[..i + 1];
      WindowsNeverOverlap(earlier, windowMs, i);
    }
  }

  /** The requests among the first `n` that fall in the window ending at `expiresAt`. */
  function InWindow(requests: seq<Request>, windowMs: int, expiresAt: int): nat {
    if requests == [] then 0
    else InWindow(requests[..|requests| - 1], windowMs, expiresAt)
         + if After(requests, windowMs) == None || After(requests, windowMs).value.expiresAt != expiresAt then 0 else 1
  }

  lemma {:induction false} FutureWindowsAreEmpty(requests: seq<Request>, windowMs: int, expiresAt: int)
    requires Monotone(requests) && windowMs > 0
    requires requests != [] ==> After(requests, windowMs).Some? && After(requests, windowMs).value.expiresAt < expiresAt
    ensures InWindow(requests, windowMs, expiresAt) == 0
  {
    if requests != [] {
      var earlier := requests[..|requests| - 1];
      if earlier != [] {
        WindowsNeverOverlap(requests, windowMs, |earlier| - 1);
        assert requests[..|earlier|] == earlier;
      }
      FutureWindowsAreEmpty(earlier, windowMs, expiresAt);
    }
  }

  /** The counter is the number of requests its window has seen, so a window allows its first `limit`
      requests and rejects the rest. */
  lemma {:induction false} CounterCountsTheWindow(requests: seq<Request>, windowMs: int)
    requires requests != [] && Monotone(requests) && windowMs > 0
    ensures var w := After(requests, windowMs);
            && w.Some? && w.value.hits == InWindow(requests, windowMs, w.value.expiresAt)
            && w.value.hits == HitsOf(requests, windowMs, |requests| - 1)
  {
    var earlier, last := requests[..|requests| - 1], requests[|requests| - 1];
    if earlier != [] {
      CounterCountsTheWindow(earlier, windowMs);
    }
    if !Live(After(earlier, windowMs), last) {
      FutureWindowsAreEmpty(earlier, windowMs, last.time + windowMs);
    }
  }

  // The service.

  datatype FailMode = Open | Closed

  datatype Answer =
    | Counting(allowed: bool, remaining: int, resetAfterMs: int, degraded: bool)
    | Unavailable

  function Max(a: int, b: int): int { if a < b then b else a }

  /** What `consume` answers when Redis does. */
  function Told(entry: Option<Window>, r: Request, limit: int, windowMs: int): (told: Answer)
    ensures told.Counting?
  {
    var ttl := Ttl(Counted(entry, r, windowMs), r);
    Counting(Hits(entry, r) <= limit, Max(limit - Hits(entry, r), 0), if ttl > 0 then ttl else windowMs, false)
  }

  function Entry(counters: map<string, Window>, key: string): Option<Window> {
    if key in counters then Some(counters[key]) else None
  }

  /** The counters in Redis, and the service in front of them. */
  class RateLimitService {
    var counters: map<string, Window>

    constructor ()
      ensures counters == map[]
    {
      counters := map[];
    }

    /** `request` is absent when Redis cannot be reached. */
    method Consume(key: string, limit: int, windowMs: int, failMode: FailMode, request: Option<Request>) returns (answer: Answer)
      modifies this
      ensures request.Some? ==>
                && answer == Told(Entry(old(counters), key), request.value, limit, windowMs)
                && Entry(counters, key) == Counted(Entry(old(counters), key), request.value, windowMs)
                && forall k :: k != key ==> Entry(counters, k) == Entry(old(counters), k)
      ensures request.None? ==>
                && counters == old(counters)
                && answer == if failMode == Open then Counting(true, limit, windowMs, true) else Unavailable
    {
      if request.None? {
        if failMode == Open {
          return Counting(true, limit, windowMs, true);
        }
        return Unavailable;
      }
      var now := request.value.time;
      if key in counters && (counters[key].expiresAt < now || (counters[key].expiresAt == now && !request.value.keptAtExpiry)) {
        counters := counters - {key};
      }
      var hits := if key in counters then counters[key].hits + 1 else 1;
      var expiresAt := if key in counters then counters[key].expiresAt else now + windowMs;
      counters := counters[key := Window(hits, expiresAt)];
      if hits == 1 && windowMs <= 0 {
        counters := counters - {key};
      }
      var ttl := if key in counters then counters[key].expiresAt - now else -2;
      return Counting(hits <= limit, Max(limit - hits, 0), if ttl > 0 then ttl else windowMs, false);
    }
  }

  /** The time a caller was told has passed; at its very last instant, only if Redis has dropped the key. */
  predicate Waited(r: Request, told: Answer, again: Request)
    requires told.Counting?
  {
    again.time > r.time + told.resetAfterMs || (again.time == r.time + told.resetAfterMs && !again.keptAtExpiry)
  }

  /** While Redis answers, a caller is told the truth: one that waits the time it is given finds its window
      over; an allowed one is told how much of the limit is left, and a rejected one that nothing is. */
  lemma ToldTheTruth(entry: Option<Window>, r: Request, limit: int, windowMs: int, again: Request)
    requires windowMs > 0 && (entry.Some? ==> entry.value.expiresAt <= r.time + windowMs)
    requires Waited(r, Told(entry, r, limit, windowMs), again)
    ensures var t := Told(entry, r, limit, windowMs);
            && 0 < t.resetAfterMs <= windowMs
            && !Live(Counted(entry, r, windowMs), again)
            && (t.allowed ==> Hits(entry, r) + t.remaining == limit)
            && (!t.allowed ==> t.remaining == 0)
  {
  }

  /** What request `i` of a trace was told. */
  function ToldOf(requests: seq<Request>, windowMs: int, limit: int, i: nat): (told: Answer)
    requires i < |requests|
    ensures told.Counting?
  {
    Told(After(requests[..i], windowMs), requests[i], limit, windowMs)
  }

  /** Requests `i` and `j` fell in one window: both left the counter with the same end. */
  predicate SameWindow(requests: seq<Request>, windowMs: int, i: nat, j: nat)
    requires i < |requests| && j < |requests|
  {
    var a, b := After(requests[..i + 1], windowMs), After(requests[..j + 1], windowMs);
    a.Some? && b.Some? && a.value.expiresAt == b.value.expiresAt
  }

  lemma AfterOneMore(requests: seq<Request>, windowMs: int, j: nat)
    requires j < |requests|
    ensures After(requests[..j + 1], windowMs) == Counted(After(requests[..j], windowMs), requests[j], windowMs)
  {
    assert requests[..j + 1][..j] == requests[..j];
  }

  lemma LastButOneIsBetween(requests: seq<Request>, windowMs: int, i: nat)
    requires Monotone(requests) && windowMs > 0 && i < |requests| - 1
    requires After(requests, windowMs).Some? && After(requests[..i + 1], windowMs).Some?
    requires After(requests, windowMs).value.expiresAt == After(requests[..i + 1], windowMs).value.expiresAt
    ensures var before := After(requests[..|requests| - 1], windowMs);
            before.Some? && before.value.expiresAt == After(requests, windowMs).value.expiresAt
  {
    var earlier := requests[..|requests| - 1];
    assert earlier[..i + 1] == requests[..i + 1] && requests[..|requests| - 2 + 1] == earlier;
    WindowsNeverOverlap(requests, windowMs, |requests| - 2);
    WindowsNeverOverlap(earlier, windowMs, i);
  }

  /** Between two requests of one window every request is of that window. */
  lemma WindowsAreConvex(requests: seq<Request>, windowMs: int, i: nat, j: nat)
    requires Monotone(requests) && windowMs > 0 && i < j < |requests| && SameWindow(requests, windowMs, i, j)
    ensures SameWindow(requests, windowMs, i, j - 1)
  {
    var upTo := requests[..j + 1];
    assert upTo[..i + 1] == requests[..i + 1] && upTo[..j] == requests[..j];
    assert requests[..(j - 1) + 1] == requests[..j];
    LastButOneIsBetween(upTo, windowMs, i);
  }

  /** In one window each request finds the counter one higher. */
  lemma {:induction false} HitsGrowByOne(requests: seq<Request>, windowMs: int, i: nat, j: nat)
    requires Monotone(requests) && windowMs > 0 && i <= j < |requests| && SameWindow(requests, windowMs, i, j)
    ensures HitsOf(requests, windowMs, j) == HitsOf(requests, windowMs, i) + (j - i)
  {
    if i < j {
      WindowsAreConvex(requests, windowMs, i, j);
      HitsGrowByOne(requests, windowMs, i, j - 1);
      AfterOneMore(requests, windowMs, j - 1);
      AfterOneMore(requests, windowMs, j);
      assert requests[..(j - 1) + 1] == requests[..j];
      LaterHit(After(requests[..j], windowMs), requests[j], windowMs);
    }
  }

  /** A request that leaves the end of the window where it was found it live. */
  lemma LaterHit(entry: Option<Window>, r: Request, windowMs: int)
    requires windowMs > 0 && entry.Some? && Counted(entry, r, windowMs).value.expiresAt == entry.value.expiresAt
    ensures Hits(entry, r) == entry.value.hits + 1
  {
  }

  /** A request is told that it is allowed exactly when it is among the first `limit` requests of its window,
      and how many of those are left after it. */
  lemma {:induction false} FirstRequestsAreAllowed(requests: seq<Request>, windowMs: int, limit: int, i: nat)
    requires Monotone(requests) && windowMs > 0 && i < |requests|
    ensures After(requests[..i + 1], windowMs).Some?
    ensures var rank := InWindow(requests[..i + 1], windowMs, After(requests[..i + 1], windowMs).value.expiresAt);
            var told := ToldOf(requests, windowMs, limit, i);
            && 1 <= rank <= i + 1
            && (told.allowed <==> rank <= limit) && (told.allowed <==> Allowed(requests, windowMs, limit, i))
            && told.remaining == (if rank <= limit then limit - rank else 0)
            && !told.degraded
  {
    var upTo := requests[..i + 1];
    assert upTo[..i] == requests[..i];
    CounterCountsTheWindow(upTo, windowMs);
    InWindowAtMost(upTo, windowMs, After(upTo, windowMs).value.expiresAt);
  }

  lemma {:induction false} InWindowAtMost(requests: seq<Request>, windowMs: int, expiresAt: int)
    ensures InWindow(requests, windowMs, expiresAt) <= |requests|
  {
    if requests != [] {
      InWindowAtMost(requests[..|requests| - 1], windowMs, expiresAt);
    }
  }

  /** A window of no length counts every request as its first. */
  lemma {:induction false} EmptyWindowsForget(requests: seq<Request>, windowMs: int, limit: int, i: nat)
    requires windowMs <= 0 && i < |requests|
    ensures After(requests[..i], windowMs).None?
    ensures ToldOf(requests, windowMs, limit, i) == Counting(limit >= 1, if limit >= 1 then limit - 1 else 0, windowMs, false)
  {
    if i > 0 {
      EmptyWindowsForget(requests, windowMs, limit, i - 1);
      AfterOneMore(requests, windowMs, i - 1);
      assert requests[..(i - 1) + 1] == requests[..i];
    }
  }

  /** A shorter wait is not enough: while its window has time left, `resetAfterMs` is exactly that time. */
  lemma ResetIsExact(entry: Option<Window>, r: Request, limit: int, windowMs: int, again: Request)
    requires windowMs > 0 && Counted(entry, r, windowMs).Some? && Counted(entry, r, windowMs).value.expiresAt > r.time
    ensures var reset := Told(entry, r, limit, windowMs).resetAfterMs;
            && r.time + reset == Counted(entry, r, windowMs).value.expiresAt
            && (again.time < r.time + reset ==> Live(Counted(entry, r, windowMs), again))
  {
  }

  /** `remaining` is what the window still allows: of the later requests in the window of request `i`, exactly
      the next `remaining` are allowed. */
  lemma RemainingIsExact(requests: seq<Request>, windowMs: int, limit: int, i: nat, j: nat)
    requires Monotone(requests) && windowMs > 0 && i < j < |requests| && SameWindow(requests, windowMs, i, j)
    ensures Allowed(requests, windowMs, limit, j) <==> j - i <= ToldOf(requests, windowMs, limit, i).remaining
  {
    HitsGrowByOne(requests, windowMs, i, j);
  }

  /** And `resetAfterMs` is enough: a request that has waited that much after the last one of any trace starts
      a window of its own. */
  lemma WaitingIsEnough(requests: seq<Request>, windowMs: int, limit: int, again: Request)
    requires Monotone(requests) && windowMs > 0 && requests != []
    requires Waited(requests[|requests| - 1], ToldOf(requests, windowMs, limit, |requests| - 1), again)
    ensures !Live(After(requests, windowMs), again) && Hits(After(requests, windowMs), again) == 1
  {
    var earlier, last := requests[..|requests| - 1], requests[|requests| - 1];
    StartsInThePast(earlier, windowMs);
    assert earlier != [] ==> earlier[|earlier| - 1] == requests[|requests| - 2] && requests[|requests| - 2].time <= last.time;
    ToldTheTruth(After(earlier, windowMs), last, limit, windowMs, again);
  }

  lemma {:induction false} StartsInThePast(requests: seq<Request>, windowMs: int)
    requires Monotone(requests) && windowMs > 0
    ensures requests != [] ==>
              var w := After(requests, windowMs); w.Some? && w.value.expiresAt <= requests[|requests| - 1].time + windowMs
    ensures requests == [] ==> After(requests, windowMs).None?
  {
    if requests != [] {
      var earlier := requests[..|requests| - 1];
      StartsInThePast(earlier, windowMs);
      assert earlier != [] ==> earlier[|earlier| - 1].time <= requests[|requests| - 1].time;
    }
  }
}
