/** Refresh sessions: logins, concurrent refreshes and logouts interleave over the session rows. A refresh
    reads its session first and exchanges it in a later transaction. Row ids are positions. */
module RefreshSessions {
  import opened Prelude

  datatype Session = Session(user: nat, tokenHash: int, expiresAt: Time, revoked: bool)

  /** A refresh token whose signature has been verified: the session it names and its hash. */
  datatype Token = Token(sid: nat, hash: int)

  /** A token that was exchanged, and when. */
  datatype Swap = Swap(token: Token, at: Time)

  // The reads and writes.

  /** The checks of `refresh` on the session it reads. */
  predicate PassesChecks(sessions: seq<Session>, t: Token, now: Time, active: bool) {
    && t.sid < |sessions| && !sessions[t.sid].revoked && sessions[t.sid].expiresAt > now && active
    && t.hash == sessions[t.sid].tokenHash
  }

  /** The transaction of `refresh`: `None` when the guarded revocation matches no row. */
  function Exchange(sessions: seq<Session>, t: Token, now: Time, hash: int, expiresAt: Time): Option<seq<Session>> {
    if t.sid < |sessions| && !sessions[t.sid].revoked && sessions[t.sid].tokenHash == t.hash && sessions[t.sid].expiresAt > now
    then Some(sessions[t.sid := sessions[t.sid].(revoked := true)] + [Session(sessions[t.sid].user, hash, expiresAt, false)])
    else None
  }

  /** Logging out looks at the session id alone. */
  predicate LogoutTakesEffect(sessions: seq<Session>, t: Token) {
    t.sid < |sessions| && !sessions[t.sid].revoked
  }

  function LoggedOut(sessions: seq<Session>, t: Token): seq<Session> {
    if LogoutTakesEffect(sessions, t) then sessions[t.sid := sessions[t.sid].(revoked := true)] else sessions
  }

  // The interleaving.

  /** The rows, the tokens that refreshes under way have checked, and the history: the login each session
      descends from, the session it was exchanged for, the exchanges, the logins that were logged out. */
  datatype State = State(
    now: Time,
    sessions: seq<Session>,
    refreshing: map<nat, Token>,
    families: seq<nat>,
    parents: seq<Option<nat>>,
    exchanged: seq<Swap>,
    logins: nat,
    ended: set<nat>)

  datatype Action =
    | Tick(to: Time)
    | Login(user: nat, hash: int, expiresAt: Time)      // or a registration
    | Check(r: nat, token: Token, active: bool)
    | Commit(r: nat, hash: int, expiresAt: Time)
    | Abandon(r: nat)
    | Logout(token: Token)

  const START := State(0, [], map[], [], [], [], 0, {})

  /** The login that a session descends from. */
  function FamilyOf(families: seq<nat>, sid: nat): nat {
    if sid < |families| then families[sid] else sid
  }

  function Step(s: State, a: Action): State {
    match a
    case Tick(to) => if s.now < to then s.(now := to) else s
    case Login(user, hash, expiresAt) =>
      s.(sessions := s.sessions + [Session(user, hash, expiresAt, false)],
         families := s.families + [|s.sessions|], parents := s.parents + [None], logins := s.logins + 1)
    case Check(r, token, active) =>
      if PassesChecks(s.sessions, token, s.now, active) then s.(refreshing := s.refreshing[r := token]) else s
    case Commit(r, hash, expiresAt) =>
      if r !in s.refreshing then s
      else
        var t := s.refreshing[r];
        (match Exchange(s.sessions, t, s.now, hash, expiresAt)
         case None => s.(refreshing := s.refreshing - {r})
         case Some(sessions) =>
           s.(sessions := sessions, refreshing := s.refreshing - {r},
              families := s.families + [FamilyOf(s.families, t.sid)], parents := s.parents + [Some(t.sid)],
              exchanged := s.exchanged + [Swap(t, s.now)]))
    case Abandon(r) => s.(refreshing := s.refreshing - {r})
    case Logout(token) =>
      s.(sessions := LoggedOut(s.sessions, token),
         ended := if LogoutTakesEffect(s.sessions, token) then s.ended + {FamilyOf(s.families, token.sid)} else s.ended)
  }

  function Unrevoked(sessions: seq<Session>): nat {
    if sessions == [] then 0
    else Unrevoked(sessions[..|sessions| - 1]) + if sessions[|sessions| - 1].revoked then 0 else 1
  }

  lemma {:induction false} RevokingOne(sessions: seq<Session>, i: nat)
    requires i < |sessions| && !sessions[i].revoked
    ensures Unrevoked(sessions[i := sessions[i].(revoked := true)]) == Unrevoked(sessions) - 1
  {
    var after := sessions[i := sessions[i].(revoked := true)];
    var last := |sessions| - 1;
    if i == last {
      assert after[..last] == sessions[..last];
    } else {
      assert after[..last] == sessions[..last][i := sessions[i].(revoked := true)];
      RevokingOne(sessions[..last], i);
    }
  }

  lemma OpeningOne(sessions: seq<Session>, session: Session)
    requires !session.revoked
    ensures Unrevoked(sessions + [session]) == Unrevoked(sessions) + 1
  {
    assert (sessions + [session])[..|sessions|] == sessions;
  }

  /** The unrevoked session of a family, if it has one, is its only one, and the family is not logged out. */
  ghost predicate FamiliesSound(sessions: seq<Session>, families: seq<nat>, ended: set<nat>) {
    && |families| == |sessions|
    && (forall i :: 0 <= i < |families| ==> families[i] < |sessions|)
    && (forall i, j :: 0 <= i < j < |sessions| && !sessions[i].revoked && !sessions[j].revoked ==> families[i] != families[j])
    && (forall i :: 0 <= i < |sessions| && !sessions[i].revoked ==> families[i] !in ended)
    && (forall f :: f in ended ==> f < |sessions|)
  }

  /** A session with a successor is revoked, and has only one. */
  ghost predicate ParentsSound(sessions: seq<Session>, parents: seq<Option<nat>>) {
    && |parents| == |sessions|
    && (forall i :: 0 <= i < |parents| && parents[i].Some? ==> parents[i].value < |sessions| && sessions[parents[i].value].revoked)
    && (forall i, j :: 0 <= i < j < |parents| && parents[i].Some? ==> parents[i] != parents[j])
  }

  /** The exchange was for its session's own hash and before it expired, and the session is revoked. */
  predicate Fair(sessions: seq<Session>, swap: Swap) {
    && swap.token.sid < |sessions| && sessions[swap.token.sid].revoked
    && swap.token.hash == sessions[swap.token.sid].tokenHash && swap.at < sessions[swap.token.sid].expiresAt
  }

  /** Exchanges are fair, and no session is exchanged twice. */
  ghost predicate ExchangesSound(sessions: seq<Session>, exchanged: seq<Swap>) {
    && (forall k :: 0 <= k < |exchanged| ==> Fair(sessions, exchanged[k]))
    && (forall k, l :: 0 <= k < l < |exchanged| ==> exchanged[k].token.sid != exchanged[l].token.sid)
  }

  ghost predicate Sound(s: State) {
    && FamiliesSound(s.sessions, s.families, s.ended)
    && ParentsSound(s.sessions, s.parents)
    && ExchangesSound(s.sessions, s.exchanged)
    && Unrevoked(s.sessions) + |s.ended| == s.logins
  }

  lemma LoginKeepsFamilies(sessions: seq<Session>, families: seq<nat>, ended: set<nat>, session: Session)
    requires FamiliesSound(sessions, families, ended) && !session.revoked
    ensures FamiliesSound(sessions + [session], families + [|sessions|], ended)
  {
  }

  lemma LoginKeepsHistory(sessions: seq<Session>, parents: seq<Option<nat>>, exchanged: seq<Swap>, session: Session)
    requires ParentsSound(sessions, parents) && ExchangesSound(sessions, exchanged)
    ensures ParentsSound(sessions + [session], parents + [None]) && ExchangesSound(sessions + [session], exchanged)
  {
    assert forall k :: 0 <= k < |exchanged| ==> Fair(sessions, exchanged[k]) && Fair(sessions + [session], exchanged[k]);
  }

  lemma LogoutKeepsFamilies(sessions: seq<Session>, families: seq<nat>, ended: set<nat>, sid: nat)
    requires FamiliesSound(sessions, families, ended) && sid < |sessions| && !sessions[sid].revoked
    ensures FamiliesSound(sessions[sid := sessions[sid].(revoked := true)], families, ended + {families[sid]})
    ensures families[sid] !in ended
  {
  }

  lemma LogoutKeepsHistory(sessions: seq<Session>, parents: seq<Option<nat>>, exchanged: seq<Swap>, sid: nat)
    requires ParentsSound(sessions, parents) && ExchangesSound(sessions, exchanged) && sid < |sessions|
    ensures ParentsSound(sessions[sid := sessions[sid].(revoked := true)], parents)
    ensures ExchangesSound(sessions[sid := sessions[sid].(revoked := true)], exchanged)
  {
    assert forall k :: 0 <= k < |exchanged| ==>
      Fair(sessions, exchanged[k]) && Fair(sessions[sid := sessions[sid].(revoked := true)], exchanged[k]);
  }

  lemma LoginKeepsSound(s: State, user: nat, hash: int, expiresAt: Time)
    requires Sound(s)
    ensures Sound(Step(s, Login(user, hash, expiresAt)))
  {
    var session := Session(user, hash, expiresAt, false);
    LoginKeepsFamilies(s.sessions, s.families, s.ended, session);
    LoginKeepsHistory(s.sessions, s.parents, s.exchanged, session);
    OpeningOne(s.sessions, session);
  }

  lemma ExchangeKeepsFamilies(sessions: seq<Session>, families: seq<nat>, ended: set<nat>, t: Token, now: Time, hash: int, expiresAt: Time)
    requires FamiliesSound(sessions, families, ended) && Exchange(sessions, t, now, hash, expiresAt).Some?
    ensures FamiliesSound(Exchange(sessions, t, now, hash, expiresAt).value, families + [families[t.sid]], ended)
  {
  }

  lemma ExchangeKeepsHistory(sessions: seq<Session>, parents: seq<Option<nat>>, exchanged: seq<Swap>, t: Token,
                             now: Time, hash: int, expiresAt: Time)
    requires ParentsSound(sessions, parents) && ExchangesSound(sessions, exchanged)
    requires Exchange(sessions, t, now, hash, expiresAt).Some?
    ensures ParentsSound(Exchange(sessions, t, now, hash, expiresAt).value, parents + [Some(t.sid)])
    ensures ExchangesSound(Exchange(sessions, t, now, hash, expiresAt).value, exchanged + [Swap(t, now)])
  {
  }

  lemma ExchangeKeepsCount(sessions: seq<Session>, t: Token, now: Time, hash: int, expiresAt: Time)
    requires Exchange(sessions, t, now, hash, expiresAt).Some?
    ensures Unrevoked(Exchange(sessions, t, now, hash, expiresAt).value) == Unrevoked(sessions)
  {
    RevokingOne(sessions, t.sid);
    OpeningOne(sessions[t.sid := sessions[t.sid].(revoked := true)], Session(sessions[t.sid].user, hash, expiresAt, false));
  }

  lemma CommitKeepsSound(s: State, r: nat, hash: int, expiresAt: Time)
    requires Sound(s)
    ensures Sound(Step(s, Commit(r, hash, expiresAt)))
  {
    if r in s.refreshing && Exchange(s.sessions, s.refreshing[r], s.now, hash, expiresAt).Some? {
      var t := s.refreshing[r];
      ExchangeKeepsFamilies(s.sessions, s.families, s.ended, t, s.now, hash, expiresAt);
      ExchangeKeepsHistory(s.sessions, s.parents, s.exchanged, t, s.now, hash, expiresAt);
      ExchangeKeepsCount(s.sessions, t, s.now, hash, expiresAt);
    }
  }

  lemma LogoutKeepsSound(s: State, t: Token)
    requires Sound(s)
    ensures Sound(Step(s, Logout(t)))
  {
    if LogoutTakesEffect(s.sessions, t) {
      LogoutKeepsFamilies(s.sessions, s.families, s.ended, t.sid);
      LogoutKeepsHistory(s.sessions, s.parents, s.exchanged, t.sid);
      RevokingOne(s.sessions, t.sid);
    }
  }

  lemma StepKeepsSound(s: State, a: Action)
    requires Sound(s)
    ensures Sound(Step(s, a))
  {
    match a
    case Login(user, hash, expiresAt) => LoginKeepsSound(s, user, hash, expiresAt);
    case Commit(r, hash, expiresAt) => CommitKeepsSound(s, r, hash, expiresAt);
    case Logout(t) => LogoutKeepsSound(s, t);
    case _ =>
  }

  function Run(s: State, actions: seq<Action>): State
    decreases |actions|
  {
    if actions == [] then s else Run(Step(s, actions[0]), actions[1..])
  }

  lemma {:induction false} RunKeepsSound(s: State, actions: seq<Action>)
    requires Sound(s)
    ensures Sound(Run(s, actions))
    decreases |actions|
  {
    if actions != [] {
      StepKeepsSound(s, actions[0]);
      RunKeepsSound(Step(s, actions[0]), actions[1..]);
    }
  }

  lemma SoundConserves(s: State)
    requires Sound(s)
    ensures forall k, l :: 0 <= k < l < |s.exchanged| ==> s.exchanged[k].token.sid != s.exchanged[l].token.sid
    ensures forall i, j :: 0 <= i < j < |s.parents| && s.parents[i].Some? ==> s.parents[i] != s.parents[j]
    ensures |s.families| == |s.sessions|
    ensures forall i, j :: 0 <= i < j < |s.sessions| && s.families[i] == s.families[j] ==>
              s.sessions[i].revoked || s.sessions[j].revoked
    ensures Unrevoked(s.sessions) == s.logins - |s.ended|
  {
  }

  /** Over every interleaving: no session's token is exchanged twice; a session has at most one successor;
      the sessions that descend from one login include at most one that is not revoked; and the unrevoked
      sessions are as many as the logins that were not logged out. */
  lemma RotationConservesSessions(actions: seq<Action>)
    ensures var s := Run(START, actions);
            && (forall k, l :: 0 <= k < l < |s.exchanged| ==> s.exchanged[k].token.sid != s.exchanged[l].token.sid)
            && (forall i, j :: 0 <= i < j < |s.parents| && s.parents[i].Some? ==> s.parents[i] != s.parents[j])
            && |s.families| == |s.sessions|
            && (forall i, j :: 0 <= i < j < |s.sessions| && s.families[i] == s.families[j] ==>
                  s.sessions[i].revoked || s.sessions[j].revoked)
            && Unrevoked(s.sessions) == s.logins - |s.ended|
  {
    RunKeepsSound(START, actions);
    SoundConserves(Run(START, actions));
  }

  /** Session `i` is a login, and then its own family, or takes user and family from the session it was
      exchanged for; its family is a login of its own user. */
  predicate Descends(sessions: seq<Session>, families: seq<nat>, parents: seq<Option<nat>>, i: nat)
    requires i < |families| == |parents| == |sessions|
  {
    && families[i] <= i && parents[families[i]].None? && sessions[i].user == sessions[families[i]].user
    && match parents[i]
       case None => families[i] == i
       case Some(p) => p < i && families[i] == families[p] && sessions[i].user == sessions[p].user
  }

  ghost predicate LineageSound(s: State) {
    && |s.families| == |s.parents| == |s.sessions|
    && forall i :: 0 <= i < |s.sessions| ==> Descends(s.sessions, s.families, s.parents, i)
  }

  /** Revoking sessions and adding one leaves the lineage of the others. */
  lemma LineageStays(s: State, after: State)
    requires LineageSound(s) && |s.sessions| <= |after.sessions| == |after.families| == |after.parents|
    requires forall i :: 0 <= i < |s.sessions| ==> after.sessions[i].user == s.sessions[i].user
    requires s.families <= after.families && s.parents <= after.parents
    ensures forall i :: 0 <= i < |s.sessions| ==> Descends(after.sessions, after.families, after.parents, i)
  {
    forall i | 0 <= i < |s.sessions| ensures Descends(after.sessions, after.families, after.parents, i) {
      assert Descends(s.sessions, s.families, s.parents, i);
    }
  }

  lemma StepKeepsLineage(s: State, a: Action)
    requires LineageSound(s)
    ensures LineageSound(Step(s, a))
  {
    var after := Step(s, a);
    LineageStays(s, after);
    if a.Login? {
      assert Descends(after.sessions, after.families, after.parents, |s.sessions|);
    } else if |after.sessions| > |s.sessions| {
      var sid := s.refreshing[a.r].sid;
      assert Descends(s.sessions, s.families, s.parents, sid);
      assert Descends(after.sessions, after.families, after.parents, |s.sessions|);
    }
  }

  lemma {:induction false} RunKeepsLineage(s: State, actions: seq<Action>)
    requires LineageSound(s)
    ensures LineageSound(Run(s, actions))
    decreases |actions|
  {
    if actions != [] {
      StepKeepsLineage(s, actions[0]);
      RunKeepsLineage(Step(s, actions[0]), actions[1..]);
    }
  }

  /** Over every interleaving, a session belongs to the user of the session it was exchanged for, and of the
      login it descends from. */
  lemma SessionsStayWithTheirUser(actions: seq<Action>, i: nat)
    requires i < |Run(START, actions).sessions|
    ensures var s := Run(START, actions);
            && |s.families| == |s.parents| == |s.sessions|
            && (s.parents[i].Some? ==> s.parents[i].value < i && s.sessions[i].user == s.sessions[s.parents[i].value].user)
            && s.families[i] <= i && s.parents[s.families[i]].None?
            && s.sessions[i].user == s.sessions[s.families[i]].user
  {
    RunKeepsLineage(START, actions);
    var s := Run(START, actions);
    assert Descends(s.sessions, s.families, s.parents, i);
  }

  /** Over every interleaving, each exchange presented its own session's hash and was committed before that
      session expired. */
  lemma ExchangesWereDue(actions: seq<Action>, k: nat)
    requires k < |Run(START, actions).exchanged|
    ensures var s := Run(START, actions);
            var t := s.exchanged[k].token;
            && t.sid < |s.sessions| && t.hash == s.sessions[t.sid].tokenHash && s.sessions[t.sid].revoked
            && s.exchanged[k].at < s.sessions[t.sid].expiresAt
  {
    RunKeepsSound(START, actions);
    SoundIsFair(Run(START, actions), k);
  }

  lemma SoundIsFair(s: State, k: nat)
    requires Sound(s) && k < |s.exchanged|
    ensures Fair(s.sessions, s.exchanged[k])
  {
  }

  /** The columns of a session that no step changes. */
  predicate SameSession(before: Session, after: Session) {
    after.user == before.user && after.tokenHash == before.tokenHash && after.expiresAt == before.expiresAt
  }

  /** Sessions are never lost, and of a session only the revocation is ever written, never undone, and only by
      the exchange or the logout of that session. A new session is the one a login or an exchange names. */
  lemma SessionsOnlyEnd(s: State, a: Action, i: nat)
    requires i < |s.sessions|
    ensures i < |Step(s, a).sessions| && SameSession(s.sessions[i], Step(s, a).sessions[i])
    ensures s.sessions[i].revoked ==> Step(s, a).sessions[i].revoked
    ensures !s.sessions[i].revoked && Step(s, a).sessions[i].revoked ==>
              || (a.Logout? && a.token.sid == i)
              || (a.Commit? && a.r in s.refreshing && s.refreshing[a.r].sid == i
                  && s.refreshing[a.r].hash == s.sessions[i].tokenHash && s.now < s.sessions[i].expiresAt)
    ensures |s.sessions| < |Step(s, a).sessions| ==>
              var added := Step(s, a).sessions[|s.sessions|];
              && |Step(s, a).sessions| == |s.sessions| + 1 && !added.revoked && (a.Login? || a.Commit?)
              && added.tokenHash == a.hash && added.expiresAt == a.expiresAt && (a.Login? ==> added.user == a.user)
  {
  }

  /** A refresh is under way only for a token that was presented to an active user's unrevoked, unexpired
      session with that session's hash; a token refused by the check changes nothing. */
  lemma ChecksAdmitExactly(s: State, r: nat, t: Token, active: bool)
    ensures var after := Step(s, Check(r, t, active));
            var valid := active && t.sid < |s.sessions| && !s.sessions[t.sid].revoked
                         && s.now < s.sessions[t.sid].expiresAt && t.hash == s.sessions[t.sid].tokenHash;
            && (valid ==> r in after.refreshing && after.refreshing[r] == t)
            && (!valid ==> after == s)
            && after.sessions == s.sessions
  {
  }

  /** A spent token has no power: once its session is revoked, presenting it to refresh or to logout leaves
      every session as it is, at any later time and for any refresh that already checked it. */
  lemma SpentTokensArePowerless(s: State, t: Token, a: Action)
    requires Sound(s) && t.sid < |s.sessions| && s.sessions[t.sid].revoked
    ensures t.sid < |Step(s, a).sessions| && Step(s, a).sessions[t.sid] == s.sessions[t.sid]
    ensures a == Logout(t) || (a.Check? && a.token == t) || (a.Commit? && a.r in s.refreshing && s.refreshing[a.r].sid == t.sid)
            ==> Step(s, a).sessions == s.sessions && Step(s, a).exchanged == s.exchanged && Step(s, a).ended == s.ended
  {
  }

  /** Of two refreshes that have checked the same session, whichever commits first wins if the session has
      not expired by then, and the other is refused. */
  lemma OneRefreshWins(s: State, first: nat, second: nat, hash: int, expiresAt: Time, hash': int, expiresAt': Time)
    requires Sound(s) && first in s.refreshing && second in s.refreshing && first != second
    requires s.refreshing[first] == s.refreshing[second]
    requires PassesChecks(s.sessions, s.refreshing[first], s.now, true)
    ensures var once := Step(s, Commit(first, hash, expiresAt));
            && Sound(once)
            && |once.sessions| == |s.sessions| + 1
            && Step(once, Commit(second, hash', expiresAt')).sessions == once.sessions
            && second !in Step(once, Commit(second, hash', expiresAt')).refreshing
  {
    StepKeepsSound(s, Commit(first, hash, expiresAt));
  }

  // The service in place.

  class AuthService {
    var sessions: seq<Session>

    constructor ()
      ensures sessions == []
    {
      sessions := [];
    }

    /** `login` and `register`, after their own checks. */
    method OpenSession(user: nat, hash: int, expiresAt: Time) returns (sid: nat)
      modifies this
      ensures sid == |old(sessions)| && sessions == old(sessions) + [Session(user, hash, expiresAt, false)]
    {
      sid := |sessions|;
      sessions := sessions + [Session(user, hash, expiresAt, false)];
    }

    /** `refresh`, with the clock readings of its check and of its transaction. */
    method Refresh(t: Token, checkedAt: Time, committedAt: Time, active: bool, hash: int, expiresAt: Time) returns (sid: Option<nat>)
      modifies this
      ensures var after := Exchange(old(sessions), t, committedAt, hash, expiresAt);
              if PassesChecks(old(sessions), t, checkedAt, active) && after.Some?
              then sessions == after.value && sid == Some(|old(sessions)|)
              else sessions == old(sessions) && sid.None?
      ensures sid.Some? ==>
                && active && t.sid < |old(sessions)|
                && !old(sessions)[t.sid].revoked && old(sessions)[t.sid].tokenHash == t.hash
                && checkedAt < old(sessions)[t.sid].expiresAt && committedAt < old(sessions)[t.sid].expiresAt
                && sid == Some(|old(sessions)|) && |sessions| == |old(sessions)| + 1
                && sessions[|old(sessions)|] == Session(old(sessions)[t.sid].user, hash, expiresAt, false)
                && sessions[t.sid].revoked
    {
      if t.sid >= |sessions| || sessions[t.sid].revoked || sessions[t.sid].expiresAt <= checkedAt || !active {
        return None;
      }
      if t.hash != sessions[t.sid].tokenHash {
        return None;
      }
      var existing := sessions[t.sid];
      if !(sessions[t.sid].tokenHash == t.hash && sessions[t.sid].expiresAt > committedAt) {
        return None;
      }
      sid := Some(|sessions|);
      sessions := sessions[t.sid := existing.(revoked := true)];
      sessions := sessions + [Session(existing.user, hash, expiresAt, false)];
    }

    method Logout(t: Token)
      modifies this
      ensures sessions == LoggedOut(old(sessions), t)
      ensures |sessions| == |old(sessions)|
      ensures forall i :: 0 <= i < |sessions| ==>
                && SameSession(old(sessions)[i], sessions[i])
                && sessions[i].revoked == (old(sessions)[i].revoked || i == t.sid)
    {
      if t.sid < |sessions| && !sessions[t.sid].revoked {
        sessions := sessions[t.sid := sessions[t.sid].(revoked := true)];
      }
    }
  }
}
