/**
 The integration ledger: one row per (tenant, idempotency key), claimed by a time-bounded lease and
 settled by a compare-and-set on the owner token.

 The predicates and functions say what each conditional UPDATE does to a row. The class runs the
 same four operations on a table of rows, and is proved against those functions. DraftProtocol
 interleaves them.
*/
module Ledger {
  import Text
  import opened Wrappers

  /** What a caller asks for. `payload` stands for the context version, source refs and body that
      are hashed together with the three identifiers. */
  datatype Request = Request(tenant: string, project: string, requestId: string, payload: int, acceptable: bool)

  /** SHA-256 of the canonical request, taken as injective on the hashed material. */
  datatype Digest = Sha(tenant: string, project: string, requestId: string, payload: int)

  /** The unique key of the ledger: the tenant and the text of the idempotency key. */
  datatype Key = Key(tenant: string, text: string)

  function DigestOf(r: Request): Digest {
    Sha(r.tenant, r.project, r.requestId, r.payload)
  }

  /** glip-draft:{tenant}:{project}:{request id}. */
  function KeyFor(d: Digest): Key {
    Key(d.tenant, Text.Join(":", ["glip-draft", d.tenant, d.project, d.requestId]))
  }

  function KeyOf(r: Request): Key {
    KeyFor(DigestOf(r))
  }

  /** The same request, in everything that is hashed. */
  predicate Alike(a: Request, b: Request) {
    a.tenant == b.tenant && a.project == b.project && a.requestId == b.requestId && a.payload == b.payload
  }

  /** Digests are equal exactly if everything hashed is. */
  lemma DigestIsExact(a: Request, b: Request)
    ensures DigestOf(a) == DigestOf(b) <==> Alike(a, b)
  {
  }

  /** Keys are equal exactly if the tenants are and the texts of project and request id are. */
  lemma KeyIsExact(g: Digest, h: Digest)
    ensures KeyFor(g) == KeyFor(h) <==>
            g.tenant == h.tenant && g.project + ":" + g.requestId == h.project + ":" + h.requestId
  {
    JoinFour("glip-draft", g.tenant, g.project, g.requestId);
    JoinFour("glip-draft", h.tenant, h.project, h.requestId);
    assert g.project + ":" + g.requestId == g.project + (":" + g.requestId);
    assert h.project + ":" + h.requestId == h.project + (":" + h.requestId);
    var front := "glip-draft" + ":" + (g.tenant + ":");
    assert Text.Join(":", ["glip-draft", g.tenant, g.project, g.requestId]) == front + (g.project + ":" + g.requestId);
    if g.tenant == h.tenant {
      assert Text.Join(":", ["glip-draft", h.tenant, h.project, h.requestId]) == front + (h.project + ":" + h.requestId);
      SameAfter(front, g.project + ":" + g.requestId, h.project + ":" + h.requestId);
    }
  }

  lemma SameAfter(front: string, s: string, t: string)
    ensures front + s == front + t <==> s == t
  {
    assert (front + s)[|front|..] == s && (front + t)[|front|..] == t;
  }

  predicate SameRequest(g: Digest, h: Digest) {
    g.tenant == h.tenant && g.project == h.project && g.requestId == h.requestId
  }

  /** So a key names one request of one project, as long as project ids have one length or no colon. The ids that
      the program makes, UUIDs written out, have both. */
  lemma KeyNamesRequest(g: Digest, h: Digest)
    requires |g.project| == |h.project| || (':' !in g.project && ':' !in h.project)
    ensures KeyFor(g) == KeyFor(h) <==> SameRequest(g, h)
  {
    KeyIsExact(g, h);
    CutAtColon(g.project, g.requestId);
    CutAtColon(h.project, h.requestId);
  }

  lemma CutAtColon(a: string, b: string)
    ensures var s := a + ":" + b;
      s[..|a|] == a && s[|a|] == ':' && s[|a| + 1..] == b && (':' !in a ==> forall i | 0 <= i < |a| :: s[i] != ':')
  {
    assert (a + ":" + b)[..|a|] == a;
  }

  lemma JoinFour(a: string, b: string, c: string, d: string)
    ensures Text.Join(":", [a, b, c, d]) == a + ":" + (b + ":" + (c + ":" + d))
  {
    assert [a, b, c, d][1..] == [b, c, d] && [b, c, d][1..] == [c, d] && [c, d][1..] == [d];
    assert Text.Join(":", [c, d]) == c + ":" + d;
    assert Text.Join(":", [b, c, d]) == b + ":" + (c + ":" + d);
  }

  datatype Response = Response(draft: nat, content: string, requestId: string, correlationId: string, retries: int)

  datatype Status = Contextualized | Calling | Completed | Failed

  /** The columns that only the settling UPDATEs write. */
  datatype Outcome = Outcome(
    upstream: Option<int>, response: Option<Response>, latency: Option<int>, retries: int,
    errorCode: Option<string>, completedAt: Option<int>)

  datatype Row = Row(
    tenant: string, digest: Digest, draft: nat, status: Status,
    owner: Option<nat>, leaseExpires: Option<int>, attempts: nat, outcome: Outcome)
  {
    predicate Settled() { status.Completed? || status.Failed? }
  }

  function NewRow(tenant: string, digest: Digest, draft: nat): Row {
    Row(tenant, digest, draft, Contextualized, None, None, 0, Outcome(None, None, None, 0, None, None))
  }

  // ----- the conditional updates

  /** The WHERE clause of the lease UPDATE; `now` is the clock of the application process. */
  predicate CanAcquire(r: Row, tenant: string, digest: Digest, owner: nat, now: int) {
    && r.tenant == tenant
    && r.digest == digest
    && (r.status.Contextualized? || r.status.Calling?)
    && (r.owner.None? || r.leaseExpires.None? || r.leaseExpires.value <= now || r.owner == Some(owner))
  }

  function Acquired(r: Row, owner: nat, now: int, leaseSeconds: int): Row {
    r.(status := Calling, owner := Some(owner), leaseExpires := Some(now + leaseSeconds), attempts := r.attempts + 1)
  }

  /** The WHERE clause shared by both settling UPDATEs; `dbNow` is the clock of the database. */
  predicate OwnsLiveLease(r: Row, tenant: string, owner: nat, dbNow: int) {
    && r.tenant == tenant
    && r.status.Calling?
    && r.owner == Some(owner)
    && r.leaseExpires.Some?
    && r.leaseExpires.value > dbNow
  }

  function CompletedRow(r: Row, upstream: int, response: Response, latency: int, retries: int, dbNow: int): Row {
    r.(status := Completed, owner := None, leaseExpires := None,
       outcome := Outcome(Some(upstream), Some(response), Some(latency), retries, None, Some(dbNow)))
  }

  function FailedRow(r: Row, code: string, dbNow: int): Row {
    r.(status := Failed, owner := None, leaseExpires := None,
       outcome := r.outcome.(errorCode := Some(code), completedAt := Some(dbNow)))
  }

  // ----- the table

  datatype Disposition = New | Replay | InProgress | FailedBefore | AcquiredLease

  datatype ClaimError =
    | KeyReusedWithDifferentRequest | WinnerNotVisible | Disappeared | ClaimConflict | OwnershipLost

  datatype Claim = Claim(row: Row, disposition: Disposition)

  /** How the loser of the unique key reads the winner. */
  function WinnerClaim(winner: Row, digest: Digest): Result<Claim, ClaimError> {
    if winner.digest != digest then Err(KeyReusedWithDifferentRequest)
    else if winner.status.Completed? && winner.outcome.response.Some? then Ok(Claim(winner, Replay))
    else if winner.status.Failed? then Ok(Claim(winner, FailedBefore))
    else Ok(Claim(winner, InProgress))
  }

  /** How a worker whose UPDATE matched (`won`) or did not match reads the row back. */
  function LeaseClaim(current: Row, owner: nat, won: bool, now: int): Result<Claim, ClaimError> {
    if won && current.owner == Some(owner) then Ok(Claim(current, AcquiredLease))
    else if current.status.Completed? && current.outcome.response.Some? then Ok(Claim(current, Replay))
    else if current.status.Failed? then Ok(Claim(current, FailedBefore))
    else if current.status.Calling? && current.owner.Some? && current.leaseExpires.Some? && current.leaseExpires.value > now
    then Ok(Claim(current, InProgress))
    else Err(ClaimConflict)
  }

  class LedgerTable {
    var rows: map<Key, Row>

    constructor ()
      ensures rows == map[]
    {
      rows := map[];
    }

    method FindExecution(key: Key) returns (found: Option<Row>)
      ensures found.Some? <==> key in rows
      ensures found.Some? ==> found.value == rows[key]
    {
      found := if key in rows then Some(rows[key]) else None;
    }

    /** The insert and the recovery of the winner, with nobody in between: the table keeps exactly
        one row per key, and only the first insert writes. */
    method CommitNewOrRecoverWinner(key: Key, candidate: Row, digest: Digest) returns (claim: Result<Claim, ClaimError>)
      modifies this
      ensures key in rows
      ensures key in old(rows) ==> rows == old(rows) && claim == WinnerClaim(rows[key], digest)
      ensures key !in old(rows) ==> rows == old(rows)[key := candidate] && claim == Ok(Claim(candidate, New))
    {
      if key !in rows {
        rows := rows[key := candidate];
        return Ok(Claim(candidate, New));
      }
      var winner := FindExecution(key);
      if winner.None? {
        return Err(WinnerNotVisible);
      }
      var row := winner.value;
      if row.digest != digest {
        return Err(KeyReusedWithDifferentRequest);
      }
      if row.status.Completed? && row.outcome.response.Some? {
        return Ok(Claim(row, Replay));
      }
      if row.status.Failed? {
        return Ok(Claim(row, FailedBefore));
      }
      return Ok(Claim(row, InProgress));
    }

    /** A lease is granted exactly when the UPDATE matches; otherwise no row changes. */
    method AcquireExecutionLease(key: Key, tenant: string, digest: Digest, owner: nat, leaseSeconds: int, now: int)
      returns (claim: Result<Claim, ClaimError>)
      modifies this
      ensures key !in old(rows) ==> rows == old(rows) && claim == Err(Disappeared)
      ensures key in old(rows) && CanAcquire(old(rows)[key], tenant, digest, owner, now) ==>
        && rows == old(rows)[key := Acquired(old(rows)[key], owner, now, leaseSeconds)]
        && claim == Ok(Claim(rows[key], AcquiredLease))
      ensures key in old(rows) && !CanAcquire(old(rows)[key], tenant, digest, owner, now) ==>
        && rows == old(rows)
        && claim == LeaseClaim(rows[key], owner, false, now)
    {
      var won := key in rows && CanAcquire(rows[key], tenant, digest, owner, now);
      if won {
        var r := rows[key];
        rows := rows[key := r.(status := Calling, owner := Some(owner), leaseExpires := Some(now + leaseSeconds),
                               attempts := r.attempts + 1)];
      }
      var found := FindExecution(key);
      if found.None? {
        return Err(Disappeared);
      }
      var current := found.value;
      if won && current.owner == Some(owner) {
        return Ok(Claim(current, AcquiredLease));
      }
      if current.status.Completed? && current.outcome.response.Some? {
        return Ok(Claim(current, Replay));
      }
      if current.status.Failed? {
        return Ok(Claim(current, FailedBefore));
      }
      if current.status.Calling? && current.owner.Some? && current.leaseExpires.Some? && current.leaseExpires.value > now {
        return Ok(Claim(current, InProgress));
      }
      return Err(ClaimConflict);
    }

    /** Settling as completed: only the holder of a live lease moves the row, and only that row. */
    method FinalizeExecutionIfOwner(key: Key, tenant: string, owner: nat, upstream: int, response: Response,
                                    latency: int, retries: int, dbNow: int)
      returns (settled: Result<Row, ClaimError>)
      modifies this
      ensures key in old(rows) && OwnsLiveLease(old(rows)[key], tenant, owner, dbNow) ==>
        && rows == old(rows)[key := CompletedRow(old(rows)[key], upstream, response, latency, retries, dbNow)]
        && settled == Ok(rows[key])
      ensures !(key in old(rows) && OwnsLiveLease(old(rows)[key], tenant, owner, dbNow)) ==>
        rows == old(rows) && settled == Err(OwnershipLost)
    {
      if key !in rows || !OwnsLiveLease(rows[key], tenant, owner, dbNow) {
        return Err(OwnershipLost);
      }
      var r := rows[key];
      var out := r.outcome.(upstream := Some(upstream), response := Some(response), latency := Some(latency));
      out := out.(retries := retries, errorCode := None, completedAt := Some(dbNow));
      r := r.(status := Completed, outcome := out, owner := None, leaseExpires := None);
      rows := rows[key := r];
      return Ok(r);
    }

    method FailExecutionIfOwner(key: Key, tenant: string, owner: nat, code: string, dbNow: int)
      returns (settled: Result<Row, ClaimError>)
      modifies this
      ensures key in old(rows) && OwnsLiveLease(old(rows)[key], tenant, owner, dbNow) ==>
        && rows == old(rows)[key := FailedRow(old(rows)[key], code, dbNow)]
        && settled == Ok(rows[key])
      ensures !(key in old(rows) && OwnsLiveLease(old(rows)[key], tenant, owner, dbNow)) ==>
        rows == old(rows) && settled == Err(OwnershipLost)
    {
      if key !in rows || !OwnsLiveLease(rows[key], tenant, owner, dbNow) {
        return Err(OwnershipLost);
      }
      var r := rows[key];
      var out := r.outcome.(errorCode := Some(code), completedAt := Some(dbNow));
      r := r.(status := Failed, outcome := out, owner := None, leaseExpires := None);
      rows := rows[key := r];
      return Ok(r);
    }
  }
}
