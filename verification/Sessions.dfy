/** authenticate_session: expiry, idle expiry with a throttled touch, and revocation. */
module Sessions {
  import opened NativeAuth
  import opened Wrappers

  // ----- one session

  function Touched(s: Settings, session: Session, now: int): Session {
    session.(lastSeenAt := now, idleExpiresAt := Min(session.expiresAt, now + s.idleTtl * TICKS))
  }

  predicate Expired(session: Session, now: int) {
    now >= session.expiresAt || now >= session.idleExpiresAt
  }

  /** An access is refused to a revoked session, and refused and revoked when it comes too late or the identity
      behind the session is no longer valid. */
  predicate Accepts(session: Session, now: int, identityOk: bool) {
    session.revokedAt.None? && !Expired(session, now) && identityOk
  }

  function Access(s: Settings, session: Session, now: int, identityOk: bool): Session {
    if session.revokedAt.Some? then session
    else if !Accepts(session, now, identityOk) then session.(revokedAt := Some(now))
    else if now - session.lastSeenAt >= s.touch * TICKS then Touched(s, session, now)
    else session
  }

  /** The simple session: it is touched by every accepted access. */
  function SimpleAccess(s: Settings, session: Session, now: int, identityOk: bool): Session {
    if session.revokedAt.Some? then session
    else if !Accepts(session, now, identityOk) then session.(revokedAt := Some(now))
    else Touched(s, session, now)
  }

  // ----- the table of sessions

  datatype Row = Row(token: nat, credential: nat, session: Session)

  datatype AccessError = InvalidSession | ExpiredSession | InvalidIdentity

  class SessionTable {
    var rows: seq<Row>

    /** uq_native_auth_session_digest, and no session is idle-expired later than it expires. */
    ghost predicate Valid()
      reads this
    {
      && (forall i, j | 0 <= i < j < |rows| :: rows[i].token != rows[j].token)
      && (forall i | 0 <= i < |rows| :: rows[i].session.idleExpiresAt <= rows[i].session.expiresAt)
    }

    constructor ()
      ensures Valid() && rows == []
    {
      rows := [];
    }

    /** The row of a token that is not revoked. */
    method Find(token: nat) returns (k: nat)
      requires Valid()
      ensures k <= |rows|
      ensures k < |rows| ==> rows[k].token == token && rows[k].session.revokedAt.None?
      ensures k == |rows| ==>
        forall i | 0 <= i < |rows| :: rows[i].token == token ==> rows[i].session.revokedAt.Some?
    {
      k := 0;
      while k < |rows|
        invariant k <= |rows|
        invariant forall i | 0 <= i < k :: rows[i].token == token ==> rows[i].session.revokedAt.Some?
      {
        if rows[k].token == token && rows[k].session.revokedAt.None? {
          return;
        }
        k := k + 1;
      }
    }

    /** The session of a login, under a token never used before. */
    method Open(s: Settings, token: nat, credential: nat, now: int)
      requires Valid() && s.idleTtl >= 0 && forall i | 0 <= i < |rows| :: rows[i].token != token
      modifies this
      ensures Valid() && rows == old(rows) + [Row(token, credential, NewSession(s, now))]
    {
      rows := rows + [Row(token, credential, NewSession(s, now))];
    }

    /** authenticate_session */
    method Authenticate(s: Settings, token: nat, now: int, identityOk: bool) returns (r: Result<nat, AccessError>)
      requires Valid()
      modifies this
      ensures Valid() && |rows| == |old(rows)|
      ensures rows == AccessToken(s, old(rows), token, now, identityOk)
      ensures r.Ok? <==> Admits(old(rows), token, now, identityOk)
      ensures r.Ok? ==> exists i | 0 <= i < |rows| :: old(rows[i].token) == token && old(rows[i].credential) == r.value
      ensures r == Err(InvalidSession) <==>
        forall i | 0 <= i < |rows| :: old(rows[i].token) == token ==> old(rows[i].session.revokedAt.Some?)
      ensures r == Err(ExpiredSession) <==> exists i | 0 <= i < |rows| ::
        old(rows[i].token) == token && old(rows[i].session.revokedAt.None?) && Expired(old(rows[i].session), now)
    {
      var k := Find(token);
      if k == |rows| {
        return Err(InvalidSession);
      }
      var row := rows[k];
      if now >= row.session.expiresAt || now >= row.session.idleExpiresAt {
        rows := rows[k := row.(session := row.session.(revokedAt := Some(now)))];
        return Err(ExpiredSession);
      }
      if !identityOk {
        rows := rows[k := row.(session := row.session.(revokedAt := Some(now)))];
        return Err(InvalidIdentity);
      }
      if now - row.session.lastSeenAt >= s.touch * TICKS {
        rows := rows[k := row.(session := Touched(s, row.session, now))];
      }
      r := Ok(row.credential);
    }

    /** revoke_session */
    method Revoke(token: nat, now: int)
      requires Valid()
      modifies this
      ensures Valid() && |rows| == |old(rows)|
      ensures rows == RevokeToken(old(rows), token, now)
    {
      var k := Find(token);
      if k < |rows| {
        rows := rows[k := Revoked(rows[k], now)];
      }
    }

    /** revoke_all_credential_sessions: every live session of the credential, and no other. */
    method RevokeAll(credential: nat, now: int) returns (count: nat)
      requires Valid()
      modifies this
      ensures Valid() && |rows| == |old(rows)|
      ensures rows == RevokeCredential(old(rows), credential, now)
      ensures count == Live(old(rows), credential)
    {
      count := 0;
      var k := 0;
      ghost var before := rows;
      while k < |rows|
        invariant k <= |rows| == |before| && Valid()
        invariant forall i | 0 <= i < k ::
          rows[i] == if before[i].credential == credential then Revoked(before[i], now) else before[i]
        invariant forall i | k <= i < |rows| :: rows[i] == before[i]
        invariant count == Live(before[..k], credential)
      {
        assert before[..k + 1][..k] == before[..k];
        if rows[k].credential == credential && rows[k].session.revokedAt.None? {
          count := count + 1;
        }
        if rows[k].credential == credential {
          rows := rows[k := Revoked(rows[k], now)];
        }
        k := k + 1;
      }
      assert before[..k] == before;
    }
  }

  /** An access with this token is accepted. */
  predicate Admits(rows: seq<Row>, token: nat, now: int, identityOk: bool) {
    exists i | 0 <= i < |rows| :: rows[i].token == token && Accepts(rows[i].session, now, identityOk)
  }

  function Revoked(row: Row, now: int): Row {
    if row.session.revokedAt.Some? then row else row.(session := row.session.(revokedAt := Some(now)))
  }

  /** What revoke_session leaves of the table. */
  function RevokeToken(rows: seq<Row>, token: nat, now: int): (after: seq<Row>)
    ensures |after| == |rows|
  {
    seq(|rows|, i requires 0 <= i < |rows| => if rows[i].token == token then Revoked(rows[i], now) else rows[i])
  }

  /** What revoke_all_credential_sessions leaves of the table. */
  function RevokeCredential(rows: seq<Row>, credential: nat, now: int): (after: seq<Row>)
    ensures |after| == |rows|
  {
    seq(|rows|, i requires 0 <= i < |rows| =>
      if rows[i].credential == credential then Revoked(rows[i], now) else rows[i])
  }

  /** What authenticate_session leaves of the table. */
  function AccessToken(s: Settings, rows: seq<Row>, token: nat, now: int, identityOk: bool): (after: seq<Row>)
    ensures |after| == |rows|
  {
    seq(|rows|, i requires 0 <= i < |rows| =>
      if rows[i].token == token then rows[i].(session := Access(s, rows[i].session, now, identityOk)) else rows[i])
  }

  function Live(rows: seq<Row>, credential: nat): nat {
    if rows == [] then 0
    else
      var last := rows[|rows| - 1];
      Live(rows[..|rows| - 1], credential) + if last.credential == credential && last.session.revokedAt.None? then 1 else 0
  }

  // ----- runs of one session

  datatype Visit = Visit(at: int, identityOk: bool)

  predicate InOrder(visits: seq<Visit>, since: int) {
    visits == [] || (since <= visits[0].at && InOrder(visits[1..], visits[0].at))
  }

  function AfterVisits(s: Settings, session: Session, visits: seq<Visit>): Session
    decreases |visits|
  {
    if visits == [] then session else AfterVisits(s, Access(s, session, visits[0].at, visits[0].identityOk), visits[1..])
  }

  function AfterSimple(s: Settings, session: Session, visits: seq<Visit>): Session
    decreases |visits|
  {
    if visits == [] then session
    else AfterSimple(s, SimpleAccess(s, session, visits[0].at, visits[0].identityOk), visits[1..])
  }

  /** The idle limit that goes with the last touch. */
  predicate WellTimed(s: Settings, session: Session) {
    session.idleExpiresAt == Min(session.expiresAt, session.lastSeenAt + s.idleTtl * TICKS)
  }

  /** The throttled session is behind the simple one: it does not outlive it. */
  predicate Behind(s: Settings, throttled: Session, simple: Session, now: int) {
    throttled.revokedAt.Some? || (
      && simple.revokedAt.None? && throttled.expiresAt == simple.expiresAt
      && WellTimed(s, throttled) && WellTimed(s, simple)
      && throttled.lastSeenAt <= simple.lastSeenAt <= now)
  }

  lemma {:induction false} StaysBehind(s: Settings, throttled: Session, simple: Session, visits: seq<Visit>, now: int,
                                       v: Visit)
    requires Behind(s, throttled, simple, now) && InOrder(visits + [v], now)
    ensures Behind(s, AfterVisits(s, throttled, visits), AfterSimple(s, simple, visits), v.at)
    decreases |visits|
  {
    if visits == [] {
      assert (visits + [v])[0] == v;
    } else {
      var first := visits[0];
      assert (visits + [v])[1..] == visits[1..] + [v];
      StaysBehind(s, Access(s, throttled, first.at, first.identityOk), SimpleAccess(s, simple, first.at, first.identityOk),
                  visits[1..], first.at, v);
    }
  }

  /** For every run of visits in order: whatever the throttled session accepts, the session touched by every
      visit accepts too. */
  lemma {:induction false} ThrottledRefinesSimple(s: Settings, openedAt: int, visits: seq<Visit>, v: Visit)
    requires InOrder(visits + [v], openedAt)
    requires Accepts(AfterVisits(s, NewSession(s, openedAt), visits), v.at, v.identityOk)
    ensures Accepts(AfterSimple(s, NewSession(s, openedAt), visits), v.at, v.identityOk)
  {
    StaysBehind(s, NewSession(s, openedAt), NewSession(s, openedAt), visits, openedAt, v);
  }

  /** A revoked session stays as it is, and accepts nothing, whatever comes. */
  lemma {:induction false} RevokedForever(s: Settings, session: Session, visits: seq<Visit>, v: Visit)
    requires session.revokedAt.Some?
    ensures AfterVisits(s, session, visits) == session
    ensures !Accepts(AfterVisits(s, session, visits), v.at, v.identityOk)
    decreases |visits|
  {
    if visits != [] {
      RevokedForever(s, session, visits[1..], v);
    }
  }

  // ----- how long may a session be left alone

  /** Valid visits in order, none more than `gap` after the one before it. */
  predicate Regular(visits: seq<Visit>, since: int, gap: int) {
    visits == []
    || (visits[0].identityOk && since <= visits[0].at <= since + gap && Regular(visits[1..], visits[0].at, gap))
  }

  /** Visits with such gaps are accepted until the session expires. */
  ghost predicate NeverIdles(s: Settings, gap: int) {
    forall openedAt: int, visits: seq<Visit>, v: Visit | InTime(s, visits, v, openedAt, gap) ::
      Accepts(AfterVisits(s, NewSession(s, openedAt), visits), v.at, true)
  }

  predicate InTime(s: Settings, visits: seq<Visit>, v: Visit, openedAt: int, gap: int) {
    Regular(visits + [v], openedAt, gap) && v.at < openedAt + s.sessionTtl * TICKS
  }

  /** Fresh as of the visit at `since`. */
  predicate Fresh(s: Settings, session: Session, openedAt: int, since: int) {
    && session.revokedAt.None? && WellTimed(s, session)
    && session.expiresAt == openedAt + s.sessionTtl * TICKS
    && openedAt <= session.lastSeenAt <= since < session.lastSeenAt + s.touch * TICKS
  }

  lemma {:induction false} LastVisit(visits: seq<Visit>, v: Visit, since: int, gap: int)
    requires Regular(visits + [v], since, gap)
    ensures since <= v.at
  {
    if visits != [] {
      assert (visits + [v])[1..] == visits[1..] + [v];
      LastVisit(visits[1..], v, visits[0].at, gap);
    } else {
      assert (visits + [v])[0] == v;
    }
  }

  lemma {:induction false} StaysAlive(s: Settings, session: Session, visits: seq<Visit>, v: Visit, openedAt: int,
                                      since: int, gap: int)
    requires s.Accepted() && (gap <= (s.idleTtl - s.touch) * TICKS || s.idleTtl == s.sessionTtl)
    requires Fresh(s, session, openedAt, since) && Regular(visits + [v], since, gap)
    requires v.at < openedAt + s.sessionTtl * TICKS
    ensures Accepts(AfterVisits(s, session, visits), v.at, true)
    decreases |visits|
  {
    if visits == [] {
      assert (visits + [v])[0] == v;
    } else {
      var first := visits[0];
      assert (visits + [v])[1..] == visits[1..] + [v];
      LastVisit(visits[1..], v, first.at, gap);
      StaysAlive(s, Access(s, session, first.at, true), visits[1..], v, openedAt, first.at, gap);
    }
  }

  /** One visit on every tick. */
  function Steady(start: int, n: nat): seq<Visit>
    decreases n
  {
    if n == 0 then [] else [Visit(start + 1, true)] + Steady(start + 1, n - 1)
  }

  lemma {:induction false} SteadyIsUntouched(s: Settings, session: Session, start: int, n: nat, v: Visit, gap: int)
    requires s.Accepted() && session.revokedAt.None? && session.lastSeenAt <= start && gap >= 1
    requires start + n < session.lastSeenAt + s.touch * TICKS && start + n < session.idleExpiresAt <= session.expiresAt
    requires v.identityOk && start + n <= v.at <= start + n + gap
    ensures AfterVisits(s, session, Steady(start, n)) == session
    ensures Regular(Steady(start, n) + [v], start, gap)
    decreases n
  {
    var visits := Steady(start, n);
    if n == 0 {
      assert visits + [v] == [v];
    } else {
      assert (visits + [v])[1..] == Steady(start + 1, n - 1) + [v];
      assert Access(s, session, start + 1, true) == session;
      SteadyIsUntouched(s, session, start + 1, n - 1, v, gap);
    }
  }

  /** The session survives every regular use with gaps of at most `gap` exactly when the gap is at most the idle
      time less the touch interval, or idle time and lifetime are the same. */
  lemma GapCondition(s: Settings, gap: int)
    requires s.Accepted() && gap >= 1
    ensures NeverIdles(s, gap) <==> gap <= (s.idleTtl - s.touch) * TICKS || s.idleTtl == s.sessionTtl
  {
    if gap <= (s.idleTtl - s.touch) * TICKS || s.idleTtl == s.sessionTtl {
      forall openedAt: int, visits: seq<Visit>, v: Visit
        | InTime(s, visits, v, openedAt, gap)
        ensures Accepts(AfterVisits(s, NewSession(s, openedAt), visits), v.at, true)
      {
        StaysAlive(s, NewSession(s, openedAt), visits, v, openedAt, openedAt, gap);
      }
    } else {
      var n := s.touch * TICKS - 1;
      var v := Visit(s.idleTtl * TICKS, true);
      SteadyIsUntouched(s, NewSession(s, 0), 0, n, v, gap);
      assert !Accepts(AfterVisits(s, NewSession(s, 0), Steady(0, n)), v.at, true);
      assert InTime(s, Steady(0, n), v, 0, gap);
    }
  }
}
