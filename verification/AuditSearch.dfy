/** The audit search: two sources, each cut to the limit by the database, merged by time, cut again, and
    only then filtered by actor and outcome. */
module AuditSearch {
  import opened Prelude
  import opened StableSort

  /** What the filters look at in an entry's payload; a field that is not a string is absent. */
  datatype Entry = Entry(id: string, actorType: Option<string>, actorUserId: Option<string>, status: Option<string>)

  /** An entry under the time it was created. */
  type Row = Keyed<Entry>

  datatype Query = Query(limit: Option<int>, actorType: Option<string>, actorUserId: Option<string>, outcome: Option<string>)

  /** `clampLimit(limit, 100, 1000)`: zero counts as absent. */
  function ClampLimit(value: Option<int>): (n: nat)
    ensures 1 <= n <= 1000
    ensures value.Some? && 1 <= value.value <= 1000 ==> n == value.value
    ensures value.Some? && value.value < 0 ==> n == 1
    ensures value.Some? && value.value > 1000 ==> n == 1000
    ensures value.None? || value.value == 0 ==> n == 100
  {
    if value.None? || value.value == 0 then 100
    else if value.value < 1 then 1
    else if value.value > 1000 then 1000
    else value.value
  }

  /** An absent or empty criterion accepts everything. */
  predicate Accepts(criterion: Option<string>, field: Option<string>) {
    criterion.None? || criterion.value == "" || field == criterion
  }

  predicate Matches(q: Query, row: Row) {
    && Accepts(q.actorType, row.item.actorType)
    && Accepts(q.actorUserId, row.item.actorUserId)
    && Accepts(q.outcome, row.item.status)
  }

  function Matching(q: Query, rows: seq<Row>): seq<Row> {
    if rows == [] then []
    else (if Matches(q, rows[0]) then [rows[0]] else []) + Matching(q, rows[1..])
  }

  /** A source as the database orders it: newest first. */
  ghost predicate Source(rows: seq<Row>) {
    Sorted(rows) && forall row :: row in rows ==> row.minor == 0
  }

  /** `searchAudit` over the agent events and channel events that meet the `where` clauses. */
  function SearchAudit(q: Query, agent: seq<Row>, channel: seq<Row>): seq<Row> {
    var n := ClampLimit(q.limit);
    Matching(q, Take(Sort(Take(agent, n) + Take(channel, n)), n))
  }

  /** All the entries of both sources, newest first. */
  function Timeline(agent: seq<Row>, channel: seq<Row>): seq<Row> {
    Sort(agent + channel)
  }

  lemma {:induction false} MatchingSplits(q: Query, xs: seq<Row>, ys: seq<Row>)
    ensures Matching(q, xs + ys) == Matching(q, xs) + Matching(q, ys)
  {
    if xs == [] {
      assert xs + ys == ys;
    } else {
      assert (xs + ys)[1..] == xs[1..] + ys;
      MatchingSplits(q, xs[1..], ys);
    }
  }

  lemma {:induction false} MatchingIsExact(q: Query, rows: seq<Row>)
    ensures |Matching(q, rows)| <= |rows|
    ensures |Matching(q, rows)| == |rows| <==> forall i :: 0 <= i < |rows| ==> Matches(q, rows[i])
    ensures Matching(q, rows) == [] <==> forall i :: 0 <= i < |rows| ==> !Matches(q, rows[i])
  {
    if rows != [] {
      MatchingIsExact(q, rows[1..]);
      assert forall i :: 0 < i < |rows| ==> rows[i] == rows[1..][i - 1];
    }
  }

  /** Cutting the sources in the database is harmless: the search sees the `n` newest entries of the whole
      timeline, ties included. */
  lemma SearchSeesTheNewest(q: Query, agent: seq<Row>, channel: seq<Row>)
    requires Source(agent) && Source(channel)
    ensures SearchAudit(q, agent, channel) == Matching(q, Take(Timeline(agent, channel), ClampLimit(q.limit)))
  {
    LimitPushdown(agent, channel, ClampLimit(q.limit));
  }

  lemma CutThenFilter(q: Query, newest: seq<Row>, older: seq<Row>, n: nat)
    requires |newest| <= n && (|newest| == n || older == [])
    ensures var wanted := Take(Matching(q, newest + older), n);
            && Matching(q, newest) <= wanted
            && (Matching(q, newest) == wanted <==>
                  || (forall i :: 0 <= i < |newest| ==> Matches(q, newest[i]))
                  || (forall i :: 0 <= i < |older| ==> !Matches(q, older[i])))
  {
    MatchingSplits(q, newest, older);
    MatchingIsExact(q, newest);
    MatchingIsExact(q, older);
    assert Matching(q, newest) + [] == Matching(q, newest);
  }

  lemma {:induction false} MatchingMembers(q: Query, rows: seq<Row>, row: Row)
    ensures row in Matching(q, rows) <==> row in rows && Matches(q, row)
  {
    if rows != [] {
      MatchingMembers(q, rows[1..], row);
      assert rows == [rows[0]] + rows[1..];
    }
  }

  lemma {:induction false} MatchingKeepsOrder(q: Query, rows: seq<Row>)
    requires Sorted(rows)
    ensures Sorted(Matching(q, rows))
  {
    if rows != [] {
      MatchingKeepsOrder(q, rows[1..]);
      forall row | row in Matching(q, rows[1..]) ensures Before(rows[0], row) {
        MatchingMembers(q, rows[1..], row);
        var i :| 0 <= i < |rows[1..]| && rows[1..][i] == row;
        assert rows[i + 1] == row;
      }
    }
  }

  /** The search answers with the entries among the newest that carry the actor type, the actor and, as their
      status, the outcome asked for, an absent or empty criterion asking for nothing; newest first. */
  lemma SearchAnswersExactly(q: Query, agent: seq<Row>, channel: seq<Row>, row: Row)
    requires Source(agent) && Source(channel)
    ensures row in SearchAudit(q, agent, channel) <==>
              && row in Take(Timeline(agent, channel), ClampLimit(q.limit))
              && (q.actorType.Some? && q.actorType.value != "" ==> row.item.actorType == q.actorType)
              && (q.actorUserId.Some? && q.actorUserId.value != "" ==> row.item.actorUserId == q.actorUserId)
              && (q.outcome.Some? && q.outcome.value != "" ==> row.item.status == q.outcome)
    ensures var answer := SearchAudit(q, agent, channel);
            forall i, j :: 0 <= i < j < |answer| ==> answer[i].major >= answer[j].major
  {
    SearchSeesTheNewest(q, agent, channel);
    var newest := Take(Timeline(agent, channel), ClampLimit(q.limit));
    MatchingMembers(q, newest, row);
    SortPermutes(agent + channel);
    MatchingKeepsOrder(q, newest);
  }

  /** Filtering after the cut is not: the answer is a prefix of the `n` newest matching entries, and is all
      of them exactly when the `n` newest entries all match or no older entry does. */
  lemma FilterAfterLimitLosesMatches(q: Query, agent: seq<Row>, channel: seq<Row>)
    requires Source(agent) && Source(channel)
    ensures var all := Timeline(agent, channel);
            var n := ClampLimit(q.limit);
            var newest := Take(all, n);
            var older := all[|newest|..];
            var wanted := Take(Matching(q, all), n);
            && SearchAudit(q, agent, channel) <= wanted
            && (SearchAudit(q, agent, channel) == wanted <==>
                  || (forall i :: 0 <= i < |newest| ==> Matches(q, newest[i]))
                  || (forall i :: 0 <= i < |older| ==> !Matches(q, older[i])))
  {
    SearchSeesTheNewest(q, agent, channel);
    var all := Timeline(agent, channel);
    var newest := Take(all, ClampLimit(q.limit));
    assert all == newest + all[|newest|..];
    CutThenFilter(q, newest, all[|newest|..], ClampLimit(q.limit));
  }
}
