/** Invitations: issuance and reissue, revocation, and one-time activation. Every request is one transaction
    under the row locks it takes. */
module Invitations {
  import opened Wrappers

  const HOUR := 3_600_000_000
  const LIFETIME := 48 * HOUR
  const HOURLY_QUOTA := 10

  datatype Key = Key(tenant: string, email: string)

  datatype Status = Pending | Accepted | Revoked

  datatype Invitation = Invitation(
    token: nat, version: nat, status: Status, createdAt: int, expiresAt: int, membership: Option<nat>)

  /** What has happened, in order. `Enrolled`: an account made without an invitation. */
  datatype Entry =
    | Issuance(key: Key, token: nat, at: int)
    | Revocation(key: Key)
    | Acceptance(key: Key, token: nat, membership: nat, at: int)
    | Enrolment(key: Key, membership: nat)

  datatype Db = Db(
    invitations: map<Key, Invitation>, credentials: map<Key, nat>, memberships: set<nat>,
    buckets: map<(string, int), nat>, owner: map<nat, Key>, log: seq<Entry>)
  {
    /** The row that holds a token's digest. */
    ghost function RowOf(token: nat): Option<Key> {
      if key :| key in invitations && invitations[key].token == token then Some(key) else None
    }

    function Slots(tenant: string, hour: int): nat {
      if (tenant, hour) in buckets then buckets[(tenant, hour)] else 0
    }
  }

  const EMPTY := Db(map[], map[], {}, map[], map[], [])

  datatype InviteError =
    | InvalidEmail | UserExists | AlreadyAccepted | AlreadyPending | RateLimited
    | NotFound | NotPending
    | Unavailable | AccountExists | PasswordRefused

  /** current.replace(minute=0, second=0, microsecond=0), as a number of hours */
  function Hour(at: int): int {
    at / HOUR
  }

  // ----- create_invitation

  function CreateError(db: Db, key: Key, emailOk: bool, now: int): Option<InviteError> {
    if !emailOk then Some(InvalidEmail)
    else if key in db.credentials then Some(UserExists)
    else if key in db.invitations && db.invitations[key].status.Accepted? then Some(AlreadyAccepted)
    else if key in db.invitations && db.invitations[key].status.Pending? && db.invitations[key].expiresAt > now then
      Some(AlreadyPending)
    else if db.Slots(key.tenant, Hour(now)) >= HOURLY_QUOTA then Some(RateLimited)
    else None
  }

  function Create(db: Db, key: Key, token: nat, now: int): Db {
    var version := if key in db.invitations then db.invitations[key].version + 1 else 1;
    db.(invitations := db.invitations[key := Invitation(token, version, Pending, now, now + LIFETIME, None)],
        buckets := db.buckets[(key.tenant, Hour(now)) := db.Slots(key.tenant, Hour(now)) + 1],
        owner := db.owner[token := key],
        log := db.log + [Issuance(key, token, now)])
  }

  // ----- revoke

  function RevokeError(db: Db, key: Key): Option<InviteError> {
    if key !in db.invitations then Some(NotFound)
    else if !db.invitations[key].status.Pending? then Some(NotPending)
    else None
  }

  function Revoke(db: Db, key: Key): Db
    requires key in db.invitations
  {
    db.(invitations := db.invitations[key := db.invitations[key].(status := Revoked)],
        log := db.log + [Revocation(key)])
  }

  // ----- accept_invitation

  ghost function AcceptError(db: Db, token: nat, tokenShapeOk: bool, passwordOk: bool, now: int): Option<InviteError> {
    if !tokenShapeOk then Some(Unavailable)
    else if db.RowOf(token).None? then Some(Unavailable)
    else AcceptRowError(db, db.RowOf(token).value, passwordOk, now)
  }

  function AcceptRowError(db: Db, key: Key, passwordOk: bool, now: int): Option<InviteError>
    requires key in db.invitations
  {
    var row := db.invitations[key];
    if !row.status.Pending? || row.expiresAt <= now then Some(Unavailable)
    else if key in db.credentials then Some(AccountExists)
    else if !passwordOk then Some(PasswordRefused)
    else None
  }

  function Accept(db: Db, key: Key, membership: nat, now: int): Db
    requires key in db.invitations
  {
    db.(invitations := db.invitations[key := db.invitations[key].(status := Accepted, membership := Some(membership))],
        credentials := db.credentials[key := membership],
        memberships := db.memberships + {membership},
        log := db.log + [Acceptance(key, db.invitations[key].token, membership, now)])
  }

  function Enrol(db: Db, key: Key, membership: nat): Db {
    db.(credentials := db.credentials[key := membership],
        memberships := db.memberships + {membership},
        log := db.log + [Enrolment(key, membership)])
  }

  // ----- the operations as they update their tables

  class Registry {
    var invitations: map<Key, Invitation>
    var credentials: map<Key, nat>
    var memberships: set<nat>
    var buckets: map<(string, int), nat>
    ghost var owner: map<nat, Key>
    ghost var log: seq<Entry>

    ghost function View(): Db
      reads this
    {
      Db(invitations, credentials, memberships, buckets, owner, log)
    }

    /** uq_user_invitation_token_digest */
    ghost predicate Valid()
      reads this
    {
      forall a, b | a in invitations && b in invitations && invitations[a].token == invitations[b].token :: a == b
    }

    constructor ()
      ensures Valid() && View() == EMPTY
    {
      invitations, credentials, memberships, buckets := map[], map[], {}, map[];
      owner, log := map[], [];
    }

    /** One slot of a tenant's hour, if one is left. */
    method TakeSlot(bucket: (string, int)) returns (free: bool)
      modifies this`buckets
      ensures free <==> old(View()).Slots(bucket.0, bucket.1) < HOURLY_QUOTA
      ensures buckets == if free then old(buckets)[bucket := old(View()).Slots(bucket.0, bucket.1) + 1] else old(buckets)
    {
      if bucket in buckets && buckets[bucket] >= HOURLY_QUOTA {
        return false;
      }
      if bucket !in buckets {
        buckets := buckets[bucket := 1];
      } else {
        buckets := buckets[bucket := buckets[bucket] + 1];
      }
      return true;
    }

    /** The fields of a new row, or all fields of the old row but its identity, with the next token version. */
    method CreateInvitation(key: Key, emailOk: bool, token: nat, now: int) returns (error: Option<InviteError>)
      requires Valid() && forall k | k in invitations :: invitations[k].token != token
      modifies this
      ensures Valid() && error == CreateError(old(View()), key, emailOk, now)
      ensures View() == if error.Some? then old(View()) else Create(old(View()), key, token, now)
    {
      if !emailOk {
        return Some(InvalidEmail);
      }
      if key in credentials {
        return Some(UserExists);
      }
      if key in invitations && invitations[key].status == Accepted {
        return Some(AlreadyAccepted);
      }
      if key in invitations && invitations[key].status == Pending && invitations[key].expiresAt > now {
        return Some(AlreadyPending);
      }
      var free := TakeSlot((key.tenant, Hour(now)));
      if !free {
        return Some(RateLimited);
      }
      if key !in invitations {
        invitations := invitations[key := Invitation(token, 1, Pending, now, now + LIFETIME, None)];
      } else {
        var row := invitations[key];
        invitations := invitations[key := row.(token := token, version := row.version + 1, status := Pending,
                                               expiresAt := now + LIFETIME, createdAt := now, membership := None)];
      }
      owner, log := owner[token := key], log + [Issuance(key, token, now)];
      return None;
    }

    method RevokeInvitation(key: Key) returns (error: Option<InviteError>)
      requires Valid()
      modifies this
      ensures Valid() && error == RevokeError(old(View()), key)
      ensures View() == if error.Some? then old(View()) else Revoke(old(View()), key)
    {
      if key !in invitations {
        return Some(NotFound);
      }
      if invitations[key].status != Pending {
        return Some(NotPending);
      }
      invitations := invitations[key := invitations[key].(status := Revoked)];
      log := log + [Revocation(key)];
      return None;
    }

    method AcceptInvitation(token: nat, tokenShapeOk: bool, passwordOk: bool, membership: nat, now: int)
        returns (error: Option<InviteError>)
      requires Valid()
      modifies this
      ensures Valid() && error == AcceptError(old(View()), token, tokenShapeOk, passwordOk, now)
      ensures error.Some? ==> View() == old(View())
      ensures error.None? ==> View() == Accept(old(View()), old(View()).RowOf(token).value, membership, now)
    {
      if !tokenShapeOk {
        return Some(Unavailable);
      }
      var holders := set k | k in invitations && invitations[k].token == token;
      if holders == {} {
        assert forall k | k in invitations :: invitations[k].token != token by {
          assert forall k | k in invitations && invitations[k].token == token :: k in holders;
        }
        return Some(Unavailable);
      }
      var key :| key in holders;
      assert View().RowOf(token) == Some(key);
      var row := invitations[key];
      if row.status != Pending || row.expiresAt <= now {
        return Some(Unavailable);
      }
      if key in credentials {
        return Some(AccountExists);
      }
      if !passwordOk {
        return Some(PasswordRefused);
      }
      memberships := memberships + {membership};
      credentials := credentials[key := membership];
      invitations := invitations[key := row.(status := Accepted, membership := Some(membership))];
      log := log + [Acceptance(key, row.token, membership, now)];
      return None;
    }
  }
}
