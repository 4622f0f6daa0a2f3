/** The invitation requests decided by nothing but what has happened before: a log of issuances, revocations and
    joinings, without rows, slots or versions. The tables come to the same. */
module InvitationHistory {
  import opened Invitations
  import opened InvitationTheorems
  import opened Wrappers

  ghost predicate Issued(log: seq<Entry>, token: nat) {
    exists i :: 0 <= i < |log| && log[i].Issuance? && log[i].token == token
  }

  ghost predicate Joined(log: seq<Entry>, key: Key) {
    exists i :: 0 <= i < |log| && Joins(log[i]) && log[i].key == key
  }

  ghost predicate Taken(log: seq<Entry>, membership: nat) {
    exists i :: 0 <= i < |log| && Joins(log[i]) && log[i].membership == membership
  }

  /** The invitation of the key was issued last, less than 48 hours ago. */
  predicate Pending(log: seq<Entry>, key: Key, now: int) {
    match Latest(log, key)
    case Some(Issuance(_, _, at)) => now < at + 48 * 3_600_000_000
    case _ => false
  }

  // ----- the answers

  ghost function InviteAnswer(log: seq<Entry>, key: Key, emailOk: bool, now: int): Option<InviteError> {
    if !emailOk then Some(InvalidEmail)
    else if Joined(log, key) then Some(UserExists)
    else if Pending(log, key, now) then Some(AlreadyPending)
    else if IssuedIn(log, key.tenant, Hour(now)) >= 10 then Some(RateLimited)
    else None
  }

  function WithdrawAnswer(log: seq<Entry>, key: Key): Option<InviteError> {
    match Latest(log, key)
    case None => Some(NotFound)
    case Some(last) => if last.Issuance? then None else Some(NotPending)
  }

  ghost function ActivateAnswer(log: seq<Entry>, token: nat, shapeOk: bool, passwordOk: bool, now: int)
      : Option<InviteError> {
    if !shapeOk then Some(Unavailable)
    else if key :| LiveToken(log, key, token, now) then
      if Joined(log, key) then Some(AccountExists) else if !passwordOk then Some(PasswordRefused) else None
    else Some(Unavailable)
  }

  ghost function KeyOf(log: seq<Entry>, token: nat, now: int): Option<Key> {
    if key :| LiveToken(log, key, token, now) then Some(key) else None
  }

  // ----- the log alone

  /** What a request adds to the log. */
  ghost function Entries(log: seq<Entry>, e: Event): seq<Entry> {
    match e
    case Invite(key, emailOk, token, now) =>
      if Issued(log, token) || InviteAnswer(log, key, emailOk, now).Some? then [] else [Issuance(key, token, now)]
    case Withdraw(key) =>
      if WithdrawAnswer(log, key).Some? then [] else [Revocation(key)]
    case Activate(token, shapeOk, passwordOk, membership, now) =>
      if Taken(log, membership) || ActivateAnswer(log, token, shapeOk, passwordOk, now).Some? || KeyOf(log, token, now).None?
      then [] else [Acceptance(KeyOf(log, token, now).value, token, membership, now)]
    case Register(key, membership) =>
      if Taken(log, membership) || Joined(log, key) then [] else [Enrolment(key, membership)]
  }

  ghost function History(events: seq<Event>): seq<Entry> {
    if events == [] then []
    else
      var log := History(events[..|events| - 1]);
      log + Entries(log, events[|events| - 1])
  }

  // ----- what the tables know is in the log

  ghost predicate TokensIssued(db: Db) {
    forall token | token in db.owner :: Issued(db.log, token)
  }

  ghost predicate AccountsJoined(db: Db) {
    forall key | key in db.credentials :: Joined(db.log, key)
  }

  ghost predicate MembershipsTaken(db: Db) {
    forall m | m in db.memberships :: Taken(db.log, m)
  }

  ghost predicate Known(db: Db) {
    Inv(db) && TokensIssued(db) && AccountsJoined(db) && MembershipsTaken(db)
  }

  lemma Appends(log: seq<Entry>, entry: Entry)
    ensures forall token | Issued(log, token) :: Issued(log + [entry], token)
    ensures forall key: Key | Joined(log, key) :: Joined(log + [entry], key)
    ensures forall m: nat | Taken(log, m) :: Taken(log + [entry], m)
    ensures entry.Issuance? ==> Issued(log + [entry], entry.token)
    ensures Joins(entry) ==> Joined(log + [entry], entry.key) && Taken(log + [entry], entry.membership)
  {
    var log' := log + [entry];
    assert log'[|log|] == entry && forall i | 0 <= i < |log| :: log'[i] == log[i];
  }

  lemma KnownStep(db: Db, e: Event)
    requires TokensIssued(db) && AccountsJoined(db) && MembershipsTaken(db)
    ensures TokensIssued(Apply(db, e)) && AccountsJoined(Apply(db, e)) && MembershipsTaken(Apply(db, e))
  {
    var db' := Apply(db, e);
    if db' != db {
      assert db'.log == db.log + [db'.log[|db.log|]];
      Appends(db.log, db'.log[|db.log|]);
    }
  }

  lemma {:induction false} AllKnown(events: seq<Event>)
    ensures Known(Run(EMPTY, events))
    decreases |events|
  {
    Reachable(events);
    if events != [] {
      AllKnown(events[..|events| - 1]);
      KnownStep(Run(EMPTY, events[..|events| - 1]), events[|events| - 1]);
    }
  }

  lemma TablesAreTheLog(db: Db)
    requires Known(db)
    ensures forall token: nat :: token in db.owner <==> Issued(db.log, token)
    ensures forall key: Key :: key in db.credentials <==> Joined(db.log, key)
    ensures forall m: nat :: m in db.memberships <==> Taken(db.log, m)
  {
  }

  // ----- the tables answer as the log does

  lemma {:induction false} LatestIsInLog(log: seq<Entry>, key: Key) returns (i: nat)
    requires Latest(log, key).Some?
    ensures i < |log| && log[i] == Latest(log, key).value && log[i].key == key && !log[i].Enrolment?
  {
    var last := |log| - 1;
    if log[last].key == key && !log[last].Enrolment? {
      i := last;
    } else {
      i := LatestIsInLog(log[..last], key);
    }
  }

  lemma AcceptedHasJoined(db: Db, key: Key)
    requires Known(db) && key in db.invitations && db.invitations[key].status.Accepted?
    ensures key in db.credentials
  {
    assert RowAgrees(db.invitations[key], key, Latest(db.log, key));
    var i := LatestIsInLog(db.log, key);
    assert Joins(db.log[i]);
  }

  lemma InviteAnswers(db: Db, key: Key, emailOk: bool, now: int)
    requires Known(db)
    ensures CreateError(db, key, emailOk, now) == InviteAnswer(db.log, key, emailOk, now)
  {
    TablesAreTheLog(db);
    assert db.Slots(key.tenant, Hour(now)) == IssuedIn(db.log, key.tenant, Hour(now));
    if key in db.invitations {
      assert RowAgrees(db.invitations[key], key, Latest(db.log, key));
      if db.invitations[key].status.Accepted? {
        AcceptedHasJoined(db, key);
      }
    }
  }

  lemma WithdrawAnswers(db: Db, key: Key)
    requires Known(db)
    ensures RevokeError(db, key) == WithdrawAnswer(db.log, key)
  {
    if key in db.invitations {
      assert RowAgrees(db.invitations[key], key, Latest(db.log, key));
    }
  }

  lemma LiveTokenIsTheRow(db: Db, key: Key, token: nat, now: int)
    requires Known(db)
    ensures LiveToken(db.log, key, token, now) <==>
      && db.RowOf(token) == Some(key) && db.invitations[key].status.Pending? && now < db.invitations[key].expiresAt
  {
    if key in db.invitations {
      assert RowAgrees(db.invitations[key], key, Latest(db.log, key));
      RowOfKey(db, key);
    }
  }

  lemma ActivateAnswers(db: Db, token: nat, shapeOk: bool, passwordOk: bool, now: int)
    requires Known(db)
    ensures AcceptError(db, token, shapeOk, passwordOk, now) == ActivateAnswer(db.log, token, shapeOk, passwordOk, now)
    ensures AcceptError(db, token, shapeOk, passwordOk, now).None? ==> KeyOf(db.log, token, now) == db.RowOf(token)
  {
    TablesAreTheLog(db);
    forall key: Key
      ensures LiveToken(db.log, key, token, now) <==>
        && db.RowOf(token) == Some(key) && db.invitations[key].status.Pending? && now < db.invitations[key].expiresAt
    {
      LiveTokenIsTheRow(db, key, token, now);
    }
  }

  // ----- theorems

  lemma ActivationIsLogged(db: Db, e: Event)
    requires Known(db) && e.Activate?
    ensures Apply(db, e).log == db.log + Entries(db.log, e)
  {
    TablesAreTheLog(db);
    ActivateAnswers(db, e.token, e.tokenShapeOk, e.passwordOk, e.now);
  }

  lemma IssuanceIsLogged(db: Db, e: Event)
    requires Known(db) && e.Invite?
    ensures Apply(db, e).log == db.log + Entries(db.log, e)
  {
    TablesAreTheLog(db);
    InviteAnswers(db, e.key, e.emailOk, e.now);
  }

  lemma StepIsLogged(db: Db, e: Event)
    requires Known(db)
    ensures Apply(db, e).log == db.log + Entries(db.log, e)
  {
    match e
    case Invite(_, _, _, _) => IssuanceIsLogged(db, e);
    case Withdraw(key) => WithdrawAnswers(db, key);
    case Activate(_, _, _, _, _) => ActivationIsLogged(db, e);
    case Register(_, _) => TablesAreTheLog(db);
  }

  /** In every run, what happens is what the log alone says: an invitation is issued for a good address without an
      account and without a live invitation, while the tenant's hour has one of its ten slots left; it is withdrawn
      if it was issued last; a token makes an account if it was issued last for a key without one, less than 48 hours
      ago. */
  lemma {:induction false} LogIsHistory(events: seq<Event>)
    ensures Run(EMPTY, events).log == History(events)
    decreases |events|
  {
    if events != [] {
      var before := events[..|events| - 1];
      LogIsHistory(before);
      AllKnown(before);
      StepIsLogged(Run(EMPTY, before), events[|events| - 1]);
    }
  }

  /** And every request is answered as the log says. */
  lemma {:induction false} AnswersAreHistory(events: seq<Event>, key: Key, emailOk: bool, token: nat, shapeOk: bool,
                                             passwordOk: bool, now: int)
    ensures var db := Run(EMPTY, events); var log := History(events);
      && CreateError(db, key, emailOk, now) == InviteAnswer(log, key, emailOk, now)
      && RevokeError(db, key) == WithdrawAnswer(log, key)
      && AcceptError(db, token, shapeOk, passwordOk, now) == ActivateAnswer(log, token, shapeOk, passwordOk, now)
  {
    AllKnown(events);
    LogIsHistory(events);
    var db := Run(EMPTY, events);
    InviteAnswers(db, key, emailOk, now);
    WithdrawAnswers(db, key);
    ActivateAnswers(db, token, shapeOk, passwordOk, now);
  }
}
