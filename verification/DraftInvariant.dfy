/**
 What every step of the draft protocol keeps, and hence every reachable state satisfies.

 `DbOk` speaks of the tables, `WorkerOk` and `EditorOk` of one process and the tables, `LocksOk`
 and `AuthorsOk` of how the processes relate. A step is sound for the tables because of
 what its own process knows; it keeps what the others know because of the row locks.
*/
module DraftInvariant {
  import opened Wrappers
  import opened Ledger
  import opened DraftProtocol

  // ----- the tables

  /** A ledger row agrees with its key and owns a draft of the same tenant and project. */
  predicate Homed(db: Db, key: Key)
    requires key in db.ledger
  {
    var r := db.ledger[key];
    && r.tenant == key.tenant && key == KeyFor(r.digest)
    && r.draft in db.drafts && db.drafts[r.draft].home == key
    && db.drafts[r.draft].tenant == r.tenant && db.drafts[r.draft].project == r.digest.project
  }

  /** Drafts and ledger rows correspond one to one. */
  predicate OneRowPerDraft(db: Db) {
    && (forall key | key in db.ledger :: Homed(db, key))
    && (forall d | d in db.drafts :: d < db.nextDraft && db.drafts[d].home in db.ledger
                                     && db.ledger[db.drafts[d].home].draft == d)
  }

  predicate LeaseFieldsOk(db: Db, r: Row) {
    && (r.status.Contextualized? ==> r.owner.None? && r.leaseExpires.None? && r.attempts == 0)
    && (r.status.Calling? ==> r.owner.Some? && r.leaseExpires.Some? && r.owner.value < |db.drawn| && r.attempts > 0)
    && (r.Settled() ==> r.owner.None? && r.leaseExpires.None?)
    && (r.status.Completed? <==> r.outcome.response.Some?)
  }

  predicate HasAgentVersion(db: Db, d: nat) {
    Slot(d, 1) in db.versions && db.versions[Slot(d, 1)].writer.Agent?
  }

  predicate CompletionOk(db: Db, r: Row) {
    && (r.status.Completed? <==> HasAgentVersion(db, r.draft))
    && (r.outcome.response.Some? && r.status.Completed? ==>
          && r.outcome.response.value.draft == r.draft
          && r.outcome.response.value.content == db.versions[Slot(r.draft, 1)].content
          && r.outcome.response.value.requestId == r.digest.requestId)
  }

  predicate RowOk(db: Db, r: Row) {
    LeaseFieldsOk(db, r) && CompletionOk(db, r)
  }

  predicate RowsOk(db: Db) {
    forall key | key in db.ledger :: RowOk(db, db.ledger[key])
  }

  /** The versions of a draft are exactly 1..currentVersion, and an AI version can only be the first. */
  ghost predicate NumberingOk(db: Db) {
    && (forall d, n | d in db.drafts && 1 <= n <= db.drafts[d].currentVersion :: Slot(d, n) in db.versions)
    && (forall v | v in db.versions :: v.draft in db.drafts && 1 <= v.number <= db.drafts[v.draft].currentVersion)
    && (forall v | v in db.versions && db.versions[v].writer.Agent? :: v.number == 1)
  }

  ghost predicate DbOk(db: Db) {
    OneRowPerDraft(db) && RowsOk(db) && NumberingOk(db)
  }

  /** What the process that issues a change knows about the tables when it commits. */
  predicate Sound(db: Db, c: Change) {
    match c
    case Nothing => true
    case NewDraft(g) => KeyFor(g) !in db.ledger
    case DrawToken(_) => true
    case Lease(key, w, now) => key in db.ledger && !db.ledger[key].Settled()
    case Status(d, _) => true
    case Complete(key, d, w, reply, response, dbNow) =>
      && key in db.ledger && db.ledger[key].draft == d && db.ledger[key].status.Calling?
      && reply.Drafted? && response.draft == d && response.content == reply.content && Slot(d, 1) !in db.versions
      && response.requestId == db.ledger[key].digest.requestId
    case Abandon(key, d, code, dbNow) => key in db.ledger && db.ledger[key].draft == d && db.ledger[key].status.Calling?
    case NewVersion(d, n, content, e) => d in db.drafts && n == db.drafts[d].currentVersion + 1
  }

  // Every draft and row keeps its identity, and only an insert adds one.

  predicate SameHome(a: Draft, b: Draft) {
    a.home == b.home && a.tenant == b.tenant && a.project == b.project
  }

  predicate SameIdentity(a: Row, b: Row) {
    a.tenant == b.tenant && a.digest == b.digest && a.draft == b.draft
  }

  predicate SameHomes(db: Db, db': Db) {
    && db'.ledger.Keys == db.ledger.Keys && db'.drafts.Keys == db.drafts.Keys && db'.nextDraft == db.nextDraft
    && (forall key | key in db.ledger :: SameIdentity(db.ledger[key], db'.ledger[key]))
    && (forall d | d in db.drafts :: SameHome(db.drafts[d], db'.drafts[d]))
  }

  lemma WriteKeepsHomes(db: Db, c: Change, secs: nat)
    requires !c.NewDraft?
    ensures SameHomes(db, Write(db, c, secs))
  {
  }

  lemma SameHomesStayOk(db: Db, db': Db)
    requires OneRowPerDraft(db) && SameHomes(db, db')
    ensures OneRowPerDraft(db')
  {
    forall key | key in db'.ledger
      ensures Homed(db', key)
    {
      assert Homed(db, key);
      assert SameIdentity(db.ledger[key], db'.ledger[key]);
    }
    forall d | d in db'.drafts
      ensures d < db'.nextDraft && db'.drafts[d].home in db'.ledger && db'.ledger[db'.drafts[d].home].draft == d
    {
      assert SameHome(db.drafts[d], db'.drafts[d]);
    }
  }

  lemma InsertKeepsOneRowPerDraft(db: Db, g: Digest, secs: nat)
    requires OneRowPerDraft(db) && KeyFor(g) !in db.ledger
    ensures OneRowPerDraft(Write(db, NewDraft(g), secs))
  {
    var db' := Write(db, NewDraft(g), secs);
    forall key | key in db'.ledger
      ensures Homed(db', key)
    {
      if key in db.ledger {
        assert Homed(db, key);
      }
    }
  }

  // The lease fields and the completion of each row.

  lemma WriteKeepsRow(db: Db, c: Change, secs: nat, key: Key)
    requires Sound(db, c) && key in db.ledger && Homed(db, key) && RowOk(db, db.ledger[key])
    requires c.Complete? || c.Abandon? ==> Homed(db, c.key)
    requires c.NewDraft? ==> db.nextDraft !in db.drafts
    requires c.NewVersion? && c.number == 1 ==> Slot(c.draft, 1) !in db.versions
    requires key in Write(db, c, secs).ledger
    ensures RowOk(Write(db, c, secs), Write(db, c, secs).ledger[key])
  {
  }

  lemma WriteKeepsRows(db: Db, c: Change, secs: nat)
    requires DbOk(db) && Sound(db, c)
    ensures RowsOk(Write(db, c, secs))
  {
    var db' := Write(db, c, secs);
    forall key | key in db'.ledger
      ensures RowOk(db', db'.ledger[key])
    {
      if key in db.ledger {
        assert c.Complete? || c.Abandon? ==> Homed(db, c.key);
        WriteKeepsRow(db, c, secs, key);
      } else {
        NewRowOk(db, c.digest, secs);
      }
    }
  }

  lemma NewRowOk(db: Db, g: Digest, secs: nat)
    requires OneRowPerDraft(db) && NumberingOk(db)
    ensures RowOk(Write(db, NewDraft(g), secs), NewRow(g.tenant, g, db.nextDraft))
  {
    assert db.nextDraft !in db.drafts;
  }

  // The numbering of versions.

  predicate SameVersions(db: Db, db': Db) {
    && db'.versions == db.versions
    && (forall d | d in db.drafts :: d in db'.drafts && db'.drafts[d].currentVersion == db.drafts[d].currentVersion)
    && (forall d | d in db'.drafts && d !in db.drafts :: db'.drafts[d].currentVersion == 0)
  }

  lemma WriteKeepsVersions(db: Db, c: Change, secs: nat)
    requires !c.Complete? && !c.NewVersion?
    requires c.NewDraft? ==> db.nextDraft !in db.drafts
    ensures SameVersions(db, Write(db, c, secs))
  {
  }

  lemma NextVersionKeepsNumbering(db: Db, d: nat, v: Version)
    requires NumberingOk(db) && d in db.drafts
    requires v.writer.Agent? ==> db.drafts[d].currentVersion == 0
    ensures NumberingOk(WithVersion(db, d, db.drafts[d].currentVersion + 1, v))
  {
    var n := db.drafts[d].currentVersion + 1;
    var db' := WithVersion(db, d, n, v);
    forall x, m | x in db'.drafts && 1 <= m <= db'.drafts[x].currentVersion
      ensures Slot(x, m) in db'.versions
    {
      assert Slot(x, m) != Slot(d, n) ==> Slot(x, m) in db.versions;
    }
  }

  lemma WriteKeepsNumbering(db: Db, c: Change, secs: nat)
    requires DbOk(db) && Sound(db, c)
    ensures NumberingOk(Write(db, c, secs))
  {
    if c.Complete? {
      assert Homed(db, c.key);
      assert db.drafts[c.draft].currentVersion == 0;
      NextVersionKeepsNumbering(db, c.draft, Version(c.reply.content, Agent(c.worker)));
      var db' := Write(db, c, secs);
      var db'' := WithVersion(db, c.draft, 1, Version(c.reply.content, Agent(c.worker)));
      assert db'.drafts == db''.drafts && db'.versions == db''.versions;
    } else if c.NewVersion? {
      NextVersionKeepsNumbering(db, c.draft, Version(c.content, Human(c.editor)));
    } else {
      WriteKeepsVersions(db, c, secs);
    }
  }

  lemma WriteKeepsDb(db: Db, c: Change, secs: nat)
    requires DbOk(db) && Sound(db, c)
    ensures DbOk(Write(db, c, secs))
  {
    WriteKeepsRows(db, c, secs);
    WriteKeepsNumbering(db, c, secs);
    if c.NewDraft? {
      InsertKeepsOneRowPerDraft(db, c.digest, secs);
    } else {
      WriteKeepsHomes(db, c, secs);
      SameHomesStayOk(db, Write(db, c, secs));
    }
  }

  // What is written stays: settled rows, identities and versions never change.

  lemma SettledRowStays(db: Db, c: Change, secs: nat, key: Key)
    requires Sound(db, c) && key in db.ledger && db.ledger[key].Settled()
    ensures key in Write(db, c, secs).ledger && Write(db, c, secs).ledger[key] == db.ledger[key]
  {
  }

  lemma IdentityStays(db: Db, c: Change, secs: nat, key: Key)
    requires Sound(db, c) && key in db.ledger
    ensures key in Write(db, c, secs).ledger && SameIdentity(db.ledger[key], Write(db, c, secs).ledger[key])
  {
  }

  lemma VersionStays(db: Db, c: Change, secs: nat, slot: Slot)
    requires Sound(db, c) && slot in db.versions
    requires slot.draft in db.drafts && slot.number <= db.drafts[slot.draft].currentVersion
    ensures slot in Write(db, c, secs).versions && Write(db, c, secs).versions[slot] == db.versions[slot]
  {
  }

  // ----- one process and the tables

  predicate PastFind(pc: Pc) {
    pc.Acquire? || pc.Reread? || Owning(pc)
  }

  /** The worker's request is the one recorded in the ledger under its key. */
  predicate Matches(db: Db, k: Worker) {
    KeyOf(k.req) in db.ledger && db.ledger[KeyOf(k.req)].digest == DigestOf(k.req)
  }

  predicate AnswerOk(db: Db, w: nat, k: Worker, a: Answer) {
    match a
    case Created(r) =>
      && Matches(db, k) && db.ledger[KeyOf(k.req)].outcome.response == Some(r)
      && HasAgentVersion(db, r.draft) && db.versions[Slot(r.draft, 1)].writer == Agent(w)
      && k.draft == Some(r.draft) && r.correlationId == k.correlation
    case Replayed(r) => Matches(db, k) && db.ledger[KeyOf(k.req)].outcome.response == Some(r)
    case Unavailable => Matches(db, k) && db.ledger[KeyOf(k.req)].status.Failed?
    case KeyReused => KeyOf(k.req) in db.ledger && !Matches(db, k)
    case StateInconsistent => false
    case WinnerInvisible => false
    case RowDisappeared => false
    case Unprocessable => !k.req.acceptable
    case _ => k.draft.Some?
  }

  predicate WorkerOk(db: Db, w: nat, k: Worker) {
    && (k.draft.Some? ==> Matches(db, k) && db.ledger[KeyOf(k.req)].draft == k.draft.value)
    && (PastFind(k.pc) ==> k.draft.Some?)
    && (k.pc.Reread? || Owning(k.pc) ==> k.token.Some?)
    && (k.token.Some? ==> k.token.value < |db.drawn| && db.drawn[k.token.value] == w)
    && (k.pc.Recover? ==> KeyOf(k.req) in db.ledger)
    && (k.pc.Flush? ==> k.pc.reply.Drafted?)
    && (k.pc.Finalize? || k.pc.CommitDone? ==> k.pc.reply.Drafted? && Slot(k.draft.value, 1) !in db.versions)
    && (k.pc.CommitDone? || k.pc.CommitFailed? ==>
          db.ledger[KeyOf(k.req)].status.Calling? && db.ledger[KeyOf(k.req)].owner == k.token
          && db.ledger[KeyOf(k.req)].leaseExpires.Some? && db.ledger[KeyOf(k.req)].leaseExpires.value > k.pc.dbNow)
    && (k.pc.Done? ==> AnswerOk(db, w, k, k.pc.answer))
  }

  predicate EditorOk(db: Db, ed: Editor) {
    && (ed.pc.FlushEdit? ==> ed.draft in db.drafts && ed.pc.seen <= db.drafts[ed.draft].currentVersion)
    && (ed.pc.CommitEdit? ==> ed.draft in db.drafts && ed.pc.number == db.drafts[ed.draft].currentVersion + 1)
  }

  /** The draft whose row a change locks, if it writes a version or settles a ledger row. */
  predicate WritesUnderLock(c: Change, d: nat) {
    (c.Complete? && c.draft == d) || (c.Abandon? && c.draft == d) || (c.NewVersion? && c.draft == d)
  }

  lemma OthersKeepAnswer(db: Db, c: Change, secs: nat, w: nat, k: Worker, a: Answer)
    requires NumberingOk(db) && Sound(db, c) && AnswerOk(db, w, k, a)
    requires forall key | key in db.ledger :: LeaseFieldsOk(db, db.ledger[key])
    ensures AnswerOk(Write(db, c, secs), w, k, a)
  {
    var key := KeyOf(k.req);
    if key in db.ledger {
      IdentityStays(db, c, secs, key);
      if db.ledger[key].Settled() {
        SettledRowStays(db, c, secs, key);
      }
    }
    if a.Created? {
      VersionStays(db, c, secs, Slot(a.response.draft, 1));
    }
  }

  /** A version can only appear under the lock of its draft. */
  lemma SlotStaysFree(db: Db, c: Change, secs: nat, slot: Slot)
    requires slot !in db.versions && !WritesUnderLock(c, slot.draft)
    ensures slot !in Write(db, c, secs).versions
  {
  }

  /** A live row only changes under the lock of its draft, or by a lease. */
  lemma LiveRowStays(db: Db, c: Change, secs: nat, key: Key)
    requires Sound(db, c) && key in db.ledger && !WritesUnderLock(c, db.ledger[key].draft)
    requires c.Lease? ==> c.key != key
    ensures key in Write(db, c, secs).ledger && Write(db, c, secs).ledger[key] == db.ledger[key]
  {
  }

  /** A change committed by somebody else keeps what a worker knows, as long as it respects the
      locks the worker holds. */
  lemma OthersKeepWorker(db: Db, c: Change, secs: nat, w: nat, k: Worker)
    requires DbOk(db) && Sound(db, c) && WorkerOk(db, w, k)
    requires forall d :: WorkerHolds(k, d) ==> !WritesUnderLock(c, d)
    requires c.Lease? ==> !Settling(k, c.key)
    ensures WorkerOk(Write(db, c, secs), w, k)
  {
    var key := KeyOf(k.req);
    if key in db.ledger {
      IdentityStays(db, c, secs, key);
    }
    if k.pc.Finalize? || k.pc.CommitDone? || k.pc.CommitFailed? {
      assert WorkerHolds(k, k.draft.value);
      if k.pc.Finalize? || k.pc.CommitDone? {
        SlotStaysFree(db, c, secs, Slot(k.draft.value, 1));
      }
      if k.pc.CommitDone? || k.pc.CommitFailed? {
        LiveRowStays(db, c, secs, key);
      }
    }
    if k.pc.Done? {
      OthersKeepAnswer(db, c, secs, w, k, k.pc.answer);
    }
  }

  /** The version number of a draft grows, and only under the lock of the draft. */
  lemma VersionNumberGrows(db: Db, c: Change, secs: nat, d: nat)
    requires Sound(db, c) && d in db.drafts && d != db.nextDraft
    requires c.Complete? ==> c.draft in db.drafts && db.drafts[c.draft].currentVersion == 0
    ensures d in Write(db, c, secs).drafts
    ensures Write(db, c, secs).drafts[d].currentVersion >= db.drafts[d].currentVersion
    ensures !WritesUnderLock(c, d) ==> Write(db, c, secs).drafts[d].currentVersion == db.drafts[d].currentVersion
  {
  }

  lemma OthersKeepEditor(db: Db, c: Change, secs: nat, ed: Editor)
    requires DbOk(db) && Sound(db, c) && EditorOk(db, ed)
    requires forall d :: EditorHolds(ed, d) ==> !WritesUnderLock(c, d)
    ensures EditorOk(Write(db, c, secs), ed)
  {
    if c.Complete? {
      assert Homed(db, c.key);
      assert db.drafts[c.draft].currentVersion == 0;
    }
    if ed.pc.FlushEdit? || ed.pc.CommitEdit? {
      VersionNumberGrows(db, c, secs, ed.draft);
    }
    if ed.pc.CommitEdit? {
      assert EditorHolds(ed, ed.draft);
    }
  }

  // ----- the processes among themselves

  /** A draft row is locked by at most one process. */
  ghost predicate LocksOk(s: State) {
    && (forall a, b, d | a in s.workers && b in s.workers && WorkerHolds(s.workers[a], d) && WorkerHolds(s.workers[b], d)
          :: a == b)
    && (forall a, b, d | a in s.editors && b in s.editors && EditorHolds(s.editors[a], d) && EditorHolds(s.editors[b], d)
          :: a == b)
    && (forall w, e, d | w in s.workers && e in s.editors && WorkerHolds(s.workers[w], d) :: !EditorHolds(s.editors[e], d))
  }

  /** Whoever enters a locking step found the draft free, or held it already. */
  lemma MoveRespectsLocks(s: State, w: nat, next: Worker, db: Db)
    requires LocksOk(s)
    requires forall d :: WorkerHolds(next, d) ==> (w in s.workers && WorkerHolds(s.workers[w], d)) || DraftFree(s, d)
    ensures LocksOk(s.(db := db, workers := s.workers[w := next]))
  {
  }

  lemma EditRespectsLocks(s: State, e: nat, next: Editor, db: Db)
    requires LocksOk(s)
    requires forall d :: EditorHolds(next, d) ==> (e in s.editors && EditorHolds(s.editors[e], d)) || DraftFree(s, d)
    ensures LocksOk(s.(db := db, editors := s.editors[e := next]))
  {
  }

  lemma WorkerMoveLocks(s: State, w: nat, k: Worker, clock: int, reply: Reply, d: nat)
    requires WorkerHolds(WorkerMove(s, w, k, clock, reply).next, d)
    requires k.draft.Some? || !k.pc.Insert?
    ensures WorkerHolds(k, d) || DraftFree(s, d)
  {
  }

  /** A step is sound for the tables, its own process still knows what it should, and it writes
      under a lock it holds. */
  predicate GoodMove(s: State, w: nat, k: Worker, m: Move) {
    && Sound(s.db, m.change)
    && WorkerOk(Write(s.db, m.change, s.leaseSeconds), w, m.next)
    && (m.change.Lease? ==> RowFree(s, m.change.key))
    && (m.change.Complete? || m.change.Abandon? ==> WorkerHolds(k, m.change.draft))
    && !m.change.NewVersion?
  }

  predicate RowKnown(db: Db, key: Key) {
    key in db.ledger && Homed(db, key) && RowOk(db, db.ledger[key])
  }

  lemma MeetRowIsGood(s: State, w: nat, k: Worker)
    requires RowKnown(s.db, KeyOf(k.req)) && WorkerOk(s.db, w, k) && (k.pc.Find? || k.pc.Recover?)
    ensures GoodMove(s, w, k, MeetRow(s.db, k, s.db.ledger[KeyOf(k.req)]))
  {
    var row := s.db.ledger[KeyOf(k.req)];
    var m := MeetRow(s.db, k, row);
    assert m.change == Nothing;
    assert row.digest == DigestOf(k.req) ==> Matches(s.db, k);
    assert WorkerOk(s.db, w, m.next);
  }

  lemma AcquireIsGood(s: State, w: nat, k: Worker, clock: int)
    requires RowKnown(s.db, KeyOf(k.req)) && WorkerOk(s.db, w, k) && k.pc.Acquire?
    ensures GoodMove(s, w, k, ClaimStep(s, w, k, KeyOf(k.req), clock))
  {
    var key := KeyOf(k.req);
    var m := ClaimStep(s, w, k, key, clock);
    if RowFree(s, key) {
      IdentityStays(s.db, m.change, s.leaseSeconds, key);
    }
  }

  lemma RereadIsGood(s: State, w: nat, k: Worker, clock: int)
    requires RowKnown(s.db, KeyOf(k.req)) && WorkerOk(s.db, w, k) && k.pc.Reread?
    ensures GoodMove(s, w, k, ClaimStep(s, w, k, KeyOf(k.req), clock))
  {
    var m := ClaimStep(s, w, k, KeyOf(k.req), clock);
    assert m.change == Nothing;
    assert WorkerOk(s.db, w, m.next);
  }

  lemma FirstStepIsGood(s: State, w: nat, k: Worker, clock: int)
    requires WorkerOk(s.db, w, k) && KeyOf(k.req) !in s.db.ledger
    requires !Owning(k.pc) && !k.pc.Done? && !k.pc.Crashed?
    ensures GoodMove(s, w, k, ClaimStep(s, w, k, KeyOf(k.req), clock))
  {
  }

  lemma ClaimStepIsGood(s: State, w: nat, k: Worker, clock: int)
    requires DbOk(s.db) && WorkerOk(s.db, w, k) && !Owning(k.pc) && !k.pc.Done? && !k.pc.Crashed?
    ensures GoodMove(s, w, k, ClaimStep(s, w, k, KeyOf(k.req), clock))
  {
    var key := KeyOf(k.req);
    if key !in s.db.ledger {
      FirstStepIsGood(s, w, k, clock);
    } else {
      assert RowKnown(s.db, key);
      match k.pc
      case Find => MeetRowIsGood(s, w, k);
      case Recover => MeetRowIsGood(s, w, k);
      case Acquire => AcquireIsGood(s, w, k, clock);
      case Reread(_, _) => RereadIsGood(s, w, k, clock);
      case Insert =>
    }
  }

  lemma QuietOwnerStepIsGood(s: State, w: nat, k: Worker, clock: int, reply: Reply)
    requires WorkerOk(s.db, w, k) && Owning(k.pc) && !k.pc.CommitDone? && !k.pc.CommitFailed?
    ensures GoodMove(s, w, k, WorkerMove(s, w, k, clock, reply))
  {
    var m := WorkerMove(s, w, k, clock, reply);
    if k.pc.Mark? {
      assert WorkerOk(s.db, w, k.(pc := Call));
    } else {
      assert m.change == Nothing && WorkerOk(s.db, w, m.next);
    }
  }

  lemma CommitIsGood(s: State, w: nat, k: Worker, clock: int, reply: Reply)
    requires RowKnown(s.db, KeyOf(k.req)) && WorkerOk(s.db, w, k) && (k.pc.CommitDone? || k.pc.CommitFailed?)
    ensures GoodMove(s, w, k, WorkerMove(s, w, k, clock, reply))
  {
    var m := WorkerMove(s, w, k, clock, reply);
    var db' := Write(s.db, m.change, s.leaseSeconds);
    assert WorkerHolds(k, k.draft.value);
    assert AnswerOk(db', w, m.next, m.next.pc.answer);
  }

  lemma OwnerStepIsGood(s: State, w: nat, k: Worker, clock: int, reply: Reply)
    requires DbOk(s.db) && WorkerOk(s.db, w, k) && Owning(k.pc)
    ensures GoodMove(s, w, k, WorkerMove(s, w, k, clock, reply))
  {
    if k.pc.CommitDone? || k.pc.CommitFailed? {
      assert RowKnown(s.db, KeyOf(k.req));
      CommitIsGood(s, w, k, clock, reply);
    } else {
      QuietOwnerStepIsGood(s, w, k, clock, reply);
    }
  }

  lemma WorkerMoveIsGood(s: State, w: nat, k: Worker, clock: int, reply: Reply)
    requires DbOk(s.db) && WorkerOk(s.db, w, k)
    ensures GoodMove(s, w, k, WorkerMove(s, w, k, clock, reply))
  {
    if Owning(k.pc) {
      OwnerStepIsGood(s, w, k, clock, reply);
    } else if !k.pc.Done? && !k.pc.Crashed? {
      ClaimStepIsGood(s, w, k, clock);
    }
  }

  predicate GoodEdit(s: State, ed: Editor, m: EditMove) {
    && Sound(s.db, m.change)
    && EditorOk(Write(s.db, m.change, s.leaseSeconds), m.next)
    && (m.change.Nothing? || (m.change.NewVersion? && EditorHolds(ed, m.change.draft)))
  }

  /** The unique key on (draft, number) makes the number read earlier still the next one. */
  lemma EditorMoveIsGood(s: State, e: nat, ed: Editor)
    requires DbOk(s.db) && EditorOk(s.db, ed)
    ensures GoodEdit(s, ed, EditorMove(s, e, ed))
  {
    if ed.pc.FlushEdit? && Slot(ed.draft, ed.pc.seen + 1) !in s.db.versions {
      assert s.db.drafts[ed.draft].currentVersion <= ed.pc.seen;
    }
  }

  // ----- the invariant

  /** Whoever wrote an AI version answered with it. */
  predicate AuthorsOk(s: State) {
    forall slot | slot in s.db.versions && s.db.versions[slot].writer.Agent? ::
      IsAuthor(s, s.db.versions[slot].writer.worker, slot.draft)
  }

  predicate IsAuthor(s: State, w: nat, d: nat) {
    w in s.workers && s.workers[w].draft == Some(d) && s.workers[w].pc.Done? && s.workers[w].pc.answer.Created?
  }

  predicate ProcessesOk(s: State) {
    && (forall w | w in s.workers :: WorkerOk(s.db, w, s.workers[w]))
    && (forall e | e in s.editors :: EditorOk(s.db, s.editors[e]))
  }

  ghost predicate Inv(s: State) {
    DbOk(s.db) && ProcessesOk(s) && LocksOk(s) && AuthorsOk(s)
  }

  lemma WorkerStepKeepsProcesses(s: State, w: nat, m: Move)
    requires Inv(s) && w in s.workers && GoodMove(s, w, s.workers[w], m)
    ensures ProcessesOk(Moved(s, w, m))
  {
    var t := Moved(s, w, m);
    forall x | x in t.workers
      ensures WorkerOk(t.db, x, t.workers[x])
    {
      if x != w {
        assert WorkerOk(s.db, x, s.workers[x]);
        OthersKeepWorker(s.db, m.change, s.leaseSeconds, x, s.workers[x]);
      }
    }
    forall e | e in t.editors
      ensures EditorOk(t.db, t.editors[e])
    {
      assert EditorOk(s.db, s.editors[e]);
      OthersKeepEditor(s.db, m.change, s.leaseSeconds, s.editors[e]);
    }
  }

  lemma WorkerStepKeepsAuthors(s: State, w: nat, clock: int, reply: Reply)
    requires AuthorsOk(s) && w in s.workers && WorkerOk(s.db, w, s.workers[w])
    ensures AuthorsOk(Moved(s, w, WorkerMove(s, w, s.workers[w], clock, reply)))
  {
    var m := WorkerMove(s, w, s.workers[w], clock, reply);
    var t := Moved(s, w, m);
    forall slot | slot in t.db.versions && t.db.versions[slot].writer.Agent?
      ensures IsAuthor(t, t.db.versions[slot].writer.worker, slot.draft)
    {
      if slot in s.db.versions && s.db.versions[slot] == t.db.versions[slot] {
        assert IsAuthor(s, s.db.versions[slot].writer.worker, slot.draft);
      }
    }
  }

  lemma WorkerStepKeepsInv(s: State, w: nat, clock: int, reply: Reply)
    requires Inv(s) && w in s.workers
    ensures Inv(Moved(s, w, WorkerMove(s, w, s.workers[w], clock, reply)))
  {
    var k := s.workers[w];
    assert WorkerOk(s.db, w, k);
    var m := WorkerMove(s, w, k, clock, reply);
    WorkerMoveIsGood(s, w, k, clock, reply);
    WriteKeepsDb(s.db, m.change, s.leaseSeconds);
    WorkerStepKeepsProcesses(s, w, m);
    WorkerStepKeepsAuthors(s, w, clock, reply);
    forall d | WorkerHolds(m.next, d)
      ensures WorkerHolds(k, d) || DraftFree(s, d)
    {
      WorkerMoveLocks(s, w, k, clock, reply, d);
    }
    MoveRespectsLocks(s, w, m.next, Write(s.db, m.change, s.leaseSeconds));
  }

  lemma EditStepKeepsProcesses(s: State, e: nat, m: EditMove)
    requires Inv(s) && GoodEdit(s, if e in s.editors then s.editors[e] else m.next, m)
    requires e !in s.editors ==> m.change == Nothing
    ensures ProcessesOk(EditMoved(s, e, m))
  {
    var t := EditMoved(s, e, m);
    forall w | w in t.workers
      ensures WorkerOk(t.db, w, t.workers[w])
    {
      assert WorkerOk(s.db, w, s.workers[w]);
      OthersKeepWorker(s.db, m.change, s.leaseSeconds, w, s.workers[w]);
    }
    forall x | x in t.editors
      ensures EditorOk(t.db, t.editors[x])
    {
      if x != e {
        assert EditorOk(s.db, s.editors[x]);
        OthersKeepEditor(s.db, m.change, s.leaseSeconds, s.editors[x]);
      }
    }
  }

  lemma EditStepKeepsInv(s: State, e: nat, m: EditMove)
    requires Inv(s) && GoodEdit(s, if e in s.editors then s.editors[e] else m.next, m)
    requires e !in s.editors ==> m.change == Nothing
    requires forall d :: EditorHolds(m.next, d) ==> (e in s.editors && EditorHolds(s.editors[e], d)) || DraftFree(s, d)
    ensures Inv(EditMoved(s, e, m))
  {
    var t := EditMoved(s, e, m);
    WriteKeepsDb(s.db, m.change, s.leaseSeconds);
    EditRespectsLocks(s, e, m.next, t.db);
    EditStepKeepsProcesses(s, e, m);
    EditStepKeepsAuthors(s, e, m);
  }

  lemma EditStepKeepsAuthors(s: State, e: nat, m: EditMove)
    requires AuthorsOk(s) && (m.change == Nothing || m.change.NewVersion?)
    ensures AuthorsOk(EditMoved(s, e, m))
  {
    var t := EditMoved(s, e, m);
    forall slot | slot in t.db.versions && t.db.versions[slot].writer.Agent?
      ensures IsAuthor(t, t.db.versions[slot].writer.worker, slot.draft)
    {
      assert IsAuthor(s, s.db.versions[slot].writer.worker, slot.draft);
    }
  }

  lemma QuietWorkerKeepsAuthors(s: State, w: nat, k: Worker)
    requires AuthorsOk(s) && (w in s.workers ==> !s.workers[w].pc.Done?)
    ensures AuthorsOk(Moved(s, w, Move(k, Nothing)))
  {
    var t := Moved(s, w, Move(k, Nothing));
    forall slot | slot in t.db.versions && t.db.versions[slot].writer.Agent?
      ensures IsAuthor(t, t.db.versions[slot].writer.worker, slot.draft)
    {
      assert IsAuthor(s, s.db.versions[slot].writer.worker, slot.draft);
    }
  }

  /** Arrivals and crashes touch one process and no table. */
  lemma QuietWorkerKeepsInv(s: State, w: nat, k: Worker)
    requires Inv(s) && (w in s.workers ==> !s.workers[w].pc.Done?)
    requires WorkerOk(s.db, w, k) && forall d :: !WorkerHolds(k, d)
    ensures Inv(Moved(s, w, Move(k, Nothing)))
  {
    QuietWorkerKeepsAuthors(s, w, k);
    MoveRespectsLocks(s, w, k, s.db);
  }

  lemma WorkerEventKeepsInv(s: State, ev: Event)
    requires Inv(s) && (ev.Arrive? || ev.Step? || ev.Crash?)
    ensures Inv(Apply(s, ev))
  {
    match ev
    case Arrive(w, req, correlation) =>
      if w !in s.workers {
        QuietWorkerKeepsInv(s, w, Worker(req, correlation, None, None, Find));
      }
    case Step(w, clock, reply) =>
      if w in s.workers {
        WorkerStepKeepsInv(s, w, clock, reply);
      }
    case Crash(w) =>
      if w in s.workers && !s.workers[w].pc.Done? {
        assert WorkerOk(s.db, w, s.workers[w]);
        QuietWorkerKeepsInv(s, w, s.workers[w].(pc := Crashed));
      }
  }

  lemma EditorEventKeepsInv(s: State, ev: Event)
    requires Inv(s) && (ev.EditArrive? || ev.EditStep? || ev.EditCrash?)
    ensures Inv(Apply(s, ev))
  {
    match ev
    case EditArrive(e, tenant, project, draft, content) =>
      if e !in s.editors {
        EditStepKeepsInv(s, e, EditMove(Editor(tenant, project, draft, content, Load), Nothing));
      }
    case EditStep(e) =>
      if e in s.editors {
        assert EditorOk(s.db, s.editors[e]);
        EditorMoveIsGood(s, e, s.editors[e]);
        EditStepKeepsInv(s, e, EditorMove(s, e, s.editors[e]));
      }
    case EditCrash(e) =>
      if e in s.editors && !s.editors[e].pc.Saved? {
        EditStepKeepsInv(s, e, EditMove(s.editors[e].(pc := EditCrashed), Nothing));
      }
  }

  lemma StepKeepsInv(s: State, ev: Event)
    requires Inv(s)
    ensures Inv(Apply(s, ev))
  {
    if ev.Arrive? || ev.Step? || ev.Crash? {
      WorkerEventKeepsInv(s, ev);
    } else {
      EditorEventKeepsInv(s, ev);
    }
  }

  /** Every reachable state satisfies the invariant: any workers and editors, any interleaving,
      crashes anywhere, any clock readings. */
  lemma {:induction false} ReachableInv(leaseSeconds: nat, events: seq<Event>)
    ensures Inv(Run(leaseSeconds, events))
  {
    if events != [] {
      ReachableInv(leaseSeconds, events[..|events| - 1]);
      StepKeepsInv(Run(leaseSeconds, events[..|events| - 1]), events[|events| - 1]);
    }
  }
}
