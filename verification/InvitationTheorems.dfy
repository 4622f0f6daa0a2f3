/** What holds over all runs of the invitation requests, whatever clock each of them reads. */
module InvitationTheorems {
  import opened Invitations
  import opened Wrappers

  datatype Event =
    | Invite(key: Key, emailOk: bool, token: nat, now: int)
    | Withdraw(key: Key)
    | Activate(token: nat, tokenShapeOk: bool, passwordOk: bool, membership: nat, now: int)
    | Register(key: Key, membership: nat)

  /** One request. Tokens and membership ids are drawn anew: a request with a used one does not happen. */
  ghost function Apply(db: Db, e: Event): Db {
    match e
    case Invite(key, emailOk, token, now) =>
      if token in db.owner || CreateError(db, key, emailOk, now).Some? then db else Create(db, key, token, now)
    case Withdraw(key) =>
      if RevokeError(db, key).Some? then db else Revoke(db, key)
    case Activate(token, shapeOk, passwordOk, membership, now) =>
      if membership in db.memberships || AcceptError(db, token, shapeOk, passwordOk, now).Some? then db
      else Accept(db, db.RowOf(token).value, membership, now)
    case Register(key, membership) =>
      if membership in db.memberships || key in db.credentials then db else Enrol(db, key, membership)
  }

  ghost function Run(db: Db, events: seq<Event>): Db
    decreases |events|
  {
    if events == [] then db else Apply(Run(db, events[..|events| - 1]), events[|events| - 1])
  }

  // ----- reading the log

  /** The latest thing that happened to the invitation of a key. */
  function Latest(log: seq<Entry>, key: Key): Option<Entry> {
    if log == [] then None
    else
      var last := log[|log| - 1];
      if last.key == key && !last.Enrolment? then Some(last) else Latest(log[..|log| - 1], key)
  }

  /** Entries that made an account. */
  predicate Joins(e: Entry) {
    e.Acceptance? || e.Enrolment?
  }

  function JoinCount(log: seq<Entry>): nat {
    if log == [] then 0 else JoinCount(log[..|log| - 1]) + if Joins(log[|log| - 1]) then 1 else 0
  }

  /** How often the invitation of a key was issued. */
  function Issues(log: seq<Entry>, key: Key): nat {
    if log == [] then 0
    else
      var last := log[|log| - 1];
      Issues(log[..|log| - 1], key) + if last.Issuance? && last.key == key then 1 else 0
  }

  function IssuedIn(log: seq<Entry>, tenant: string, hour: int): nat {
    if log == [] then 0
    else
      var last := log[|log| - 1];
      IssuedIn(log[..|log| - 1], tenant, hour)
        + if last.Issuance? && last.key.tenant == tenant && Hour(last.at) == hour then 1 else 0
  }

  function IssuedBetween(log: seq<Entry>, tenant: string, start: int, end: int): nat {
    if log == [] then 0
    else
      var last := log[|log| - 1];
      IssuedBetween(log[..|log| - 1], tenant, start, end)
        + if last.Issuance? && last.key.tenant == tenant && start <= last.at <= end then 1 else 0
  }

  // ----- the invariant

  /** A row says what the log says last of its key. */
  predicate RowAgrees(row: Invitation, key: Key, latest: Option<Entry>) {
    && row.expiresAt == row.createdAt + LIFETIME
    && match row.status
       case Pending => latest == Some(Issuance(key, row.token, row.createdAt))
       case Revoked => latest == Some(Revocation(key))
       case Accepted => latest.Some? && AcceptedAs(row, latest.value)
  }

  predicate AcceptedAs(row: Invitation, e: Entry) {
    e.Acceptance? && e.token == row.token && row.membership == Some(e.membership)
  }

  ghost predicate RowsAgree(db: Db) {
    && (forall key | key in db.invitations :: RowAgrees(db.invitations[key], key, Latest(db.log, key)))
    && (forall key: Key | key !in db.invitations :: Latest(db.log, key).None?)
  }

  /** Every token belongs to the key it was issued to. */
  predicate TokensOwned(db: Db) {
    && (forall key | key in db.invitations ::
      db.invitations[key].token in db.owner && db.owner[db.invitations[key].token] == key)
    && (forall i | 0 <= i < |db.log| && (db.log[i].Issuance? || db.log[i].Acceptance?) ::
      db.log[i].token in db.owner && db.owner[db.log[i].token] == db.log[i].key)
  }

  predicate IssuedOnce(log: seq<Entry>) {
    forall i, j | 0 <= i < j < |log| && log[i].Issuance? && log[j].Issuance? :: log[i].token != log[j].token
  }

  predicate JoinedOnce(db: Db) {
    && (forall i | 0 <= i < |db.log| && Joins(db.log[i]) ::
      && db.log[i].key in db.credentials && db.credentials[db.log[i].key] == db.log[i].membership
      && db.log[i].membership in db.memberships)
    && (forall i, j | 0 <= i < j < |db.log| && Joins(db.log[i]) && Joins(db.log[j]) ::
      db.log[i].key != db.log[j].key && db.log[i].membership != db.log[j].membership)
  }

  predicate Counted(db: Db) {
    |db.credentials| == |db.memberships| == JoinCount(db.log)
  }

  ghost predicate QuotaKept(db: Db) {
    forall tenant: string, hour: int {:trigger db.Slots(tenant, hour)} ::
      db.Slots(tenant, hour) == IssuedIn(db.log, tenant, hour) <= HOURLY_QUOTA
  }

  /** token_version counts the issuances. */
  ghost predicate VersionsCount(db: Db) {
    forall key: Key :: Issues(db.log, key) == if key in db.invitations then db.invitations[key].version else 0
  }

  ghost predicate Inv(db: Db) {
    RowsAgree(db) && VersionsCount(db) && TokensOwned(db) && IssuedOnce(db.log) && JoinedOnce(db) && Counted(db) && QuotaKept(db)
  }

  // ----- one step

  lemma {:induction false} LatestSnoc(log: seq<Entry>, e: Entry)
    ensures forall key: Key ::
      Latest(log + [e], key) == if e.key == key && !e.Enrolment? then Some(e) else Latest(log, key)
  {
    assert (log + [e])[..|log|] == log;
  }

  lemma RowOfKey(db: Db, key: Key)
    requires TokensOwned(db) && key in db.invitations
    ensures db.RowOf(db.invitations[key].token) == Some(key)
  {
  }

  lemma LogStep(db: Db, e: Event)
    ensures var log' := Apply(db, e).log; log' == db.log || (|log'| == |db.log| + 1 && log'[..|db.log|] == db.log)
  {
  }

  lemma StepRows(db: Db, e: Event)
    requires RowsAgree(db)
    ensures RowsAgree(Apply(db, e))
  {
    var db' := Apply(db, e);
    if db' != db {
      LatestSnoc(db.log, db'.log[|db.log|]);
      assert db'.log == db.log + [db'.log[|db.log|]];
    }
  }

  lemma StepVersions(db: Db, e: Event)
    requires VersionsCount(db)
    ensures VersionsCount(Apply(db, e))
  {
    var db' := Apply(db, e);
    LogStep(db, e);
    forall key: Key
      ensures Issues(db'.log, key) == if key in db'.invitations then db'.invitations[key].version else 0
    {
      assert Issues(db.log, key) == if key in db.invitations then db.invitations[key].version else 0;
    }
  }

  lemma StepTokens(db: Db, e: Event)
    requires TokensOwned(db)
    ensures TokensOwned(Apply(db, e))
  {
    LogStep(db, e);
  }

  lemma StepIssued(db: Db, e: Event)
    requires IssuedOnce(db.log) && TokensOwned(db)
    ensures IssuedOnce(Apply(db, e).log)
  {
    LogStep(db, e);
  }

  lemma StepJoined(db: Db, e: Event)
    requires JoinedOnce(db)
    ensures JoinedOnce(Apply(db, e))
  {
    LogStep(db, e);
  }

  lemma MapGrows<K, V>(m: map<K, V>, k: K, v: V)
    requires k !in m
    ensures |m[k := v]| == |m| + 1
  {
    assert m[k := v].Keys == m.Keys + {k};
  }

  lemma StepCounted(db: Db, e: Event)
    requires Counted(db)
    ensures Counted(Apply(db, e))
  {
    var db' := Apply(db, e);
    LogStep(db, e);
    if db' != db && (e.Activate? || e.Register?) {
      var key := db'.log[|db.log|].key;
      MapGrows(db.credentials, key, e.membership);
    }
  }

  lemma StepQuota(db: Db, e: Event)
    requires QuotaKept(db)
    ensures QuotaKept(Apply(db, e))
  {
    var db' := Apply(db, e);
    LogStep(db, e);
    forall tenant: string, hour: int
      ensures db'.Slots(tenant, hour) == IssuedIn(db'.log, tenant, hour) <= HOURLY_QUOTA
    {
      assert db.Slots(tenant, hour) == IssuedIn(db.log, tenant, hour) <= HOURLY_QUOTA;
    }
  }

  lemma {:induction false} Reachable(events: seq<Event>)
    ensures Inv(Run(EMPTY, events))
    decreases |events|
  {
    if events != [] {
      var before, e := Run(EMPTY, events[..|events| - 1]), events[|events| - 1];
      Reachable(events[..|events| - 1]);
      StepRows(before, e);
      StepVersions(before, e);
      StepTokens(before, e);
      StepIssued(before, e);
      StepJoined(before, e);
      StepCounted(before, e);
      StepQuota(before, e);
    } else {
      assert |EMPTY.credentials| == 0;
    }
  }

  // ----- theorems

  /** A live token: the latest that happened to its invitation is that it was issued, less than 48 hours ago. */
  ghost predicate LiveToken(log: seq<Entry>, key: Key, token: nat, now: int) {
    exists at: int :: Latest(log, key) == Some(Issuance(key, token, at)) && now < at + LIFETIME
  }

  /** In every reachable state, a token is accepted for a key exactly when it is live for that key, no account
      has the key, and the password is allowed. */
  lemma {:induction false} AcceptsLiveTokens(events: seq<Event>, key: Key, token: nat, passwordOk: bool, now: int)
    ensures var db := Run(EMPTY, events);
      (AcceptError(db, token, true, passwordOk, now).None? && db.RowOf(token) == Some(key))
      <==> (LiveToken(db.log, key, token, now) && key !in db.credentials && passwordOk)
  {
    var db := Run(EMPTY, events);
    Reachable(events);
    if LiveToken(db.log, key, token, now) {
      assert key in db.invitations;
      RowOfKey(db, key);
    }
    if db.RowOf(token) == Some(key) {
      var row := db.invitations[key];
      assert RowAgrees(row, key, Latest(db.log, key));
    }
  }

  /** Every token is accepted at most once, and so is every invitation; each acceptance has an account and a
      membership of its own. */
  lemma {:induction false} AcceptedAtMostOnce(events: seq<Event>, i: nat, j: nat)
    requires var log := Run(EMPTY, events).log;
      i < j < |log| && log[i].Acceptance? && log[j].Acceptance?
    ensures var log := Run(EMPTY, events).log;
      log[i].token != log[j].token && log[i].key != log[j].key && log[i].membership != log[j].membership
  {
    Reachable(events);
  }

  /** token_version is the number of times the invitation was issued. */
  lemma {:induction false} VersionIsIssues(events: seq<Event>, key: Key)
    requires key in Run(EMPTY, events).invitations
    ensures Run(EMPTY, events).invitations[key].version == Issues(Run(EMPTY, events).log, key)
  {
    Reachable(events);
    var db := Run(EMPTY, events);
    assert Issues(db.log, key) == db.invitations[key].version;
  }

  /** Accounts and memberships are as many as there were acceptances and enrolments: each adds one of both. */
  lemma {:induction false} AccountsAreCounted(events: seq<Event>)
    ensures var db := Run(EMPTY, events); |db.credentials| == |db.memberships| == JoinCount(db.log)
  {
    Reachable(events);
  }

  lemma AcceptedStep(db: Db, e: Event, key: Key)
    requires key in db.invitations && db.invitations[key].status.Accepted?
    ensures key in Apply(db, e).invitations && Apply(db, e).invitations[key] == db.invitations[key]
  {
  }

  /** An accepted invitation stays as it is: no reissue, no revocation, no second acceptance. */
  lemma {:induction false} AcceptedForever(db: Db, events: seq<Event>, key: Key)
    requires key in db.invitations && db.invitations[key].status.Accepted?
    ensures key in Run(db, events).invitations && Run(db, events).invitations[key] == db.invitations[key]
    decreases |events|
  {
    if events != [] {
      AcceptedForever(db, events[..|events| - 1], key);
      AcceptedStep(Run(db, events[..|events| - 1]), events[|events| - 1], key);
    }
  }

  lemma {:induction false} TwoHours(log: seq<Entry>, tenant: string, start: int, end: int)
    requires start <= end <= start + HOUR
    ensures IssuedBetween(log, tenant, start, end)
         <= IssuedIn(log, tenant, Hour(start)) + IssuedIn(log, tenant, Hour(start) + 1)
  {
    if log != [] {
      TwoHours(log[..|log| - 1], tenant, start, end);
    }
  }

  /** For every tenant: at most ten issuances in any UTC hour, and at most twenty in any sixty minutes. */
  lemma {:induction false} IssuanceIsLimited(events: seq<Event>, tenant: string, hour: int, start: int, end: int)
    requires start <= end <= start + HOUR
    ensures IssuedIn(Run(EMPTY, events).log, tenant, hour) <= HOURLY_QUOTA
    ensures IssuedBetween(Run(EMPTY, events).log, tenant, start, end) <= 2 * HOURLY_QUOTA
  {
    var db := Run(EMPTY, events);
    Reachable(events);
    TwoHours(db.log, tenant, start, end);
    assert db.Slots(tenant, hour) <= HOURLY_QUOTA;
    assert db.Slots(tenant, Hour(start)) <= HOURLY_QUOTA && db.Slots(tenant, Hour(start) + 1) <= HOURLY_QUOTA;
  }
}
