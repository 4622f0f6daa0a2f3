/** Runs of the session table: what is revoked, or was refused once, never lets anybody in again. */
module SessionRuns {
  import opened NativeAuth
  import opened Sessions
  import opened Wrappers

  datatype Op =
    | SignIn(token: nat, credential: nat, at: int)
    | Use(token: nat, at: int, identityOk: bool)
    | SignOut(token: nat, at: int)
    | SignOutAll(credential: nat, at: int)

  predicate HasToken(rows: seq<Row>, token: nat) {
    exists i | 0 <= i < |rows| :: rows[i].token == token
  }

  /** What one call leaves of the table; a token is unique, so signing in under one that exists changes nothing. */
  function Perform(s: Settings, rows: seq<Row>, op: Op): seq<Row> {
    match op
    case SignIn(token, credential, at) =>
      if HasToken(rows, token) then rows else rows + [Row(token, credential, NewSession(s, at))]
    case Use(token, at, identityOk) => AccessToken(s, rows, token, at, identityOk)
    case SignOut(token, at) => RevokeToken(rows, token, at)
    case SignOutAll(credential, at) => RevokeCredential(rows, credential, at)
  }

  function PerformAll(s: Settings, rows: seq<Row>, ops: seq<Op>): seq<Row>
    decreases |ops|
  {
    if ops == [] then rows else PerformAll(s, Perform(s, rows, ops[0]), ops[1..])
  }

  // ----- one call

  /** Revoked at this time, unless it was before; nothing else is changed. */
  predicate IsRevoked(before: Row, after: Row, at: int) {
    && after.token == before.token && after.credential == before.credential
    && after.session.lastSeenAt == before.session.lastSeenAt && after.session.expiresAt == before.session.expiresAt
    && after.session.idleExpiresAt == before.session.idleExpiresAt
    && after.session.revokedAt == if before.session.revokedAt.Some? then before.session.revokedAt else Some(at)
  }

  /** Signing out revokes the rows of its token and leaves all others. */
  lemma SignOutRevokes(s: Settings, rows: seq<Row>, token: nat, at: int)
    ensures var after := Perform(s, rows, SignOut(token, at));
      && |after| == |rows|
      && forall i | 0 <= i < |rows| ::
           if rows[i].token == token then IsRevoked(rows[i], after[i], at) else after[i] == rows[i]
  {
  }

  lemma SignOutAllRevokes(s: Settings, rows: seq<Row>, credential: nat, at: int)
    ensures var after := Perform(s, rows, SignOutAll(credential, at));
      && |after| == |rows|
      && forall i | 0 <= i < |rows| ::
           if rows[i].credential == credential then IsRevoked(rows[i], after[i], at) else after[i] == rows[i]
  {
  }

  /** The token, the credential and the lifetime of a row, and when it was last used. */
  predicate OnlyTouched(before: Row, after: Row, at: int, idleTtl: int) {
    && after.token == before.token && after.credential == before.credential
    && after.session.expiresAt == before.session.expiresAt && after.session.revokedAt.None?
    && after.session.lastSeenAt == at
    && after.session.idleExpiresAt
       == if before.session.expiresAt <= at + idleTtl * TICKS then before.session.expiresAt else at + idleTtl * TICKS
  }

  /** A use is refused to a revoked session, which it leaves alone; it revokes one that is over, idle for too long
      or whose identity is not valid; and it touches any other when the last touch is long enough ago. */
  lemma UseDoes(s: Settings, rows: seq<Row>, token: nat, at: int, identityOk: bool)
    ensures var after := Perform(s, rows, Use(token, at, identityOk));
      && |after| == |rows|
      && forall i | 0 <= i < |rows| ::
           var session := rows[i].session;
           if rows[i].token != token || session.revokedAt.Some? then after[i] == rows[i]
           else if at >= session.expiresAt || at >= session.idleExpiresAt || !identityOk then
             IsRevoked(rows[i], after[i], at) && !Accepts(session, at, identityOk)
           else
             && Accepts(session, at, identityOk)
             && if at - session.lastSeenAt >= s.touch * TICKS then OnlyTouched(rows[i], after[i], at, s.idleTtl)
                else after[i] == rows[i]
  {
  }

  /** Signing in opens a session that lives, and may be idle, for the times of the settings. */
  lemma SignInOpens(s: Settings, rows: seq<Row>, token: nat, credential: nat, at: int)
    requires !HasToken(rows, token)
    ensures var after := Perform(s, rows, SignIn(token, credential, at));
      && |after| == |rows| + 1 && after[..|rows|] == rows
      && var row := after[|rows|];
      && row.token == token && row.credential == credential && row.session.revokedAt.None?
      && row.session.lastSeenAt == at && row.session.expiresAt == at + s.sessionTtl * TICKS
      && (0 <= s.idleTtl <= s.sessionTtl ==> row.session.idleExpiresAt == at + s.idleTtl * TICKS)
  {
  }

  // ----- for ever

  /** The token is known, and every row of it is revoked. */
  predicate Dead(rows: seq<Row>, token: nat) {
    HasToken(rows, token) && forall i | 0 <= i < |rows| && rows[i].token == token :: rows[i].session.revokedAt.Some?
  }

  lemma DeadIsRefused(rows: seq<Row>, token: nat, at: int, identityOk: bool)
    requires Dead(rows, token)
    ensures !Admits(rows, token, at, identityOk)
  {
  }

  lemma StaysDead(s: Settings, rows: seq<Row>, op: Op, token: nat)
    requires Dead(rows, token)
    ensures Dead(Perform(s, rows, op), token)
  {
    var i :| 0 <= i < |rows| && rows[i].token == token;
    assert Perform(s, rows, op)[i].token == token;
  }

  lemma {:induction false} DeadForever(s: Settings, rows: seq<Row>, ops: seq<Op>, token: nat)
    requires Dead(rows, token)
    ensures Dead(PerformAll(s, rows, ops), token)
    decreases |ops|
  {
    if ops != [] {
      StaysDead(s, rows, ops[0], token);
      DeadForever(s, Perform(s, rows, ops[0]), ops[1..], token);
    }
  }

  /** After signing out no access with its token is accepted, whatever comes. */
  lemma {:induction false} SignOutIsFinal(s: Settings, rows: seq<Row>, token: nat, at: int, ops: seq<Op>, later: int,
                                         identityOk: bool)
    requires HasToken(rows, token)
    ensures !Admits(PerformAll(s, Perform(s, rows, SignOut(token, at)), ops), token, later, identityOk)
  {
    var after := Perform(s, rows, SignOut(token, at));
    SignOutRevokes(s, rows, token, at);
    assert HasToken(after, token) by {
      var i :| 0 <= i < |rows| && rows[i].token == token;
      assert after[i].token == token;
    }
    DeadForever(s, after, ops, token);
    DeadIsRefused(PerformAll(s, after, ops), token, later, identityOk);
  }

  predicate UniqueTokens(rows: seq<Row>) {
    forall i, j | 0 <= i < j < |rows| :: rows[i].token != rows[j].token
  }

  /** After signing out of a credential no access with a token it then had is accepted, whatever comes. */
  lemma {:induction false} SignOutAllIsFinal(s: Settings, rows: seq<Row>, k: nat, at: int, ops: seq<Op>, later: int,
                                            identityOk: bool)
    requires UniqueTokens(rows) && k < |rows|
    ensures var after := Perform(s, rows, SignOutAll(rows[k].credential, at));
      !Admits(PerformAll(s, after, ops), rows[k].token, later, identityOk)
  {
    var after := Perform(s, rows, SignOutAll(rows[k].credential, at));
    SignOutAllRevokes(s, rows, rows[k].credential, at);
    assert after[k].token == rows[k].token;
    assert forall i | 0 <= i < |rows| && i != k :: rows[i].token != rows[k].token;
    DeadForever(s, after, ops, rows[k].token);
    DeadIsRefused(PerformAll(s, after, ops), rows[k].token, later, identityOk);
  }

  /** A token that was refused once is refused for ever. */
  lemma {:induction false} RefusalIsFinal(s: Settings, rows: seq<Row>, token: nat, at: int, ok: bool, ops: seq<Op>,
                                          later: int, identityOk: bool)
    requires UniqueTokens(rows) && HasToken(rows, token) && !Admits(rows, token, at, ok)
    ensures !Admits(PerformAll(s, Perform(s, rows, Use(token, at, ok)), ops), token, later, identityOk)
  {
    var after := Perform(s, rows, Use(token, at, ok));
    UseDoes(s, rows, token, at, ok);
    assert HasToken(after, token) by {
      var i :| 0 <= i < |rows| && rows[i].token == token;
      assert after[i].token == token;
    }
    DeadForever(s, after, ops, token);
    DeadIsRefused(PerformAll(s, after, ops), token, later, identityOk);
  }

  lemma {:induction false} TokensStayUnique(s: Settings, rows: seq<Row>, ops: seq<Op>)
    requires UniqueTokens(rows)
    ensures UniqueTokens(PerformAll(s, rows, ops))
    decreases |ops|
  {
    if ops != [] {
      TokensStayUnique(s, Perform(s, rows, ops[0]), ops[1..]);
    }
  }

  // ----- counting

  function LiveRows(rows: seq<Row>, credential: nat): set<nat> {
    set i: nat | i < |rows| && rows[i].credential == credential && rows[i].session.revokedAt.None?
  }

  /** revoke_all_credential_sessions answers with the number of sessions it revoked. */
  lemma {:induction false} LiveIsCount(rows: seq<Row>, credential: nat)
    ensures Live(rows, credential) == |LiveRows(rows, credential)|
  {
    if rows == [] {
      assert LiveRows(rows, credential) == {};
    } else {
      var n := |rows| - 1;
      LiveIsCount(rows[..n], credential);
      var live := rows[n].credential == credential && rows[n].session.revokedAt.None?;
      assert LiveRows(rows, credential) == LiveRows(rows[..n], credential) + (if live then {n} else {});
    }
  }
}
