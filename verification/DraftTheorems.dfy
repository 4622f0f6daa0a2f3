/** What the draft protocol promises over whole runs. */
module DraftTheorems {
  import opened Wrappers
  import opened Ledger
  import opened DraftProtocol
  import opened DraftInvariant

  predicate SettledIn(s: State, key: Key) {
    key in s.db.ledger && s.db.ledger[key].Settled()
  }

  /** The event moves the row under `key` into {completed, failed}. */
  predicate Settles(s: State, ev: Event, key: Key) {
    !SettledIn(s, key) && SettledIn(Apply(s, ev), key)
  }

  /** How often the row under `key` is settled in a run. */
  function Settlements(secs: nat, events: seq<Event>, key: Key): nat {
    if events == [] then 0
    else
      var before := events[..|events| - 1];
      Settlements(secs, before, key) + if Settles(Run(secs, before), events[|events| - 1], key) then 1 else 0
  }

  /** What an event commits, as a change of the tables. */
  function ChangeOf(s: State, ev: Event): Change {
    if ev.Step? && ev.w in s.workers then WorkerMove(s, ev.w, s.workers[ev.w], ev.clock, ev.reply).change
    else if ev.EditStep? && ev.e in s.editors then EditorMove(s, ev.e, s.editors[ev.e]).change
    else Nothing
  }

  lemma EventWrites(s: State, ev: Event)
    requires Inv(s)
    ensures Apply(s, ev).db == Write(s.db, ChangeOf(s, ev), s.leaseSeconds)
    ensures Apply(s, ev).leaseSeconds == s.leaseSeconds
    ensures Sound(s.db, ChangeOf(s, ev))
  {
    if ev.Step? && ev.w in s.workers {
      assert WorkerOk(s.db, ev.w, s.workers[ev.w]);
      WorkerMoveIsGood(s, ev.w, s.workers[ev.w], ev.clock, ev.reply);
    } else if ev.EditStep? && ev.e in s.editors {
      assert EditorOk(s.db, s.editors[ev.e]);
      EditorMoveIsGood(s, ev.e, s.editors[ev.e]);
    }
  }

  lemma {:induction false} RunStep(secs: nat, events: seq<Event>, ev: Event)
    ensures Run(secs, events + [ev]) == Apply(Run(secs, events), ev)
  {
    assert (events + [ev])[..|events|] == events;
  }

  /** No field of a settled row ever changes again, whatever happens afterwards. */
  lemma {:induction false} SettledForever(secs: nat, events: seq<Event>, more: seq<Event>, key: Key)
    requires SettledIn(Run(secs, events), key)
    ensures key in Run(secs, events + more).db.ledger
    ensures Run(secs, events + more).db.ledger[key] == Run(secs, events).db.ledger[key]
    decreases |more|
  {
    if more == [] {
      assert events + more == events;
    } else {
      var init, last := more[..|more| - 1], more[|more| - 1];
      SettledForever(secs, events, init, key);
      assert events + more == (events + init) + [last];
      var s := Run(secs, events + init);
      RunStep(secs, events + init, last);
      ReachableInv(secs, events + init);
      EventWrites(s, last);
      SettledRowStays(s.db, ChangeOf(s, last), s.leaseSeconds, key);
    }
  }

  /** The worker is about to commit the settlement of the row under `key`, whose lease was live at its
      reading of the database clock, and it is the only worker with the row's owner token. */
  ghost predicate SettlesAsOwner(s: State, w: nat, key: Key) {
    && w in s.workers && key in s.db.ledger
    && var k, row := s.workers[w], s.db.ledger[key];
    && KeyOf(k.req) == key && DigestOf(k.req) == row.digest
    && (k.pc.CommitDone? || k.pc.CommitFailed?)
    && k.token.Some? && row.owner == k.token
    && row.leaseExpires.Some? && k.pc.dbNow < row.leaseExpires.value
    && forall x | x in s.workers && s.workers[x].token == k.token :: x == w
  }

  lemma TokenIdentifiesWorker(s: State, w: nat, x: nat)
    requires Inv(s) && w in s.workers && x in s.workers
    requires s.workers[w].token.Some? && s.workers[x].token == s.workers[w].token
    ensures x == w
  {
    assert WorkerOk(s.db, w, s.workers[w]) && WorkerOk(s.db, x, s.workers[x]);
  }

  /** The only step that settles a row is the commit of its current owner. */
  lemma {:induction false} OnlyTheOwnerSettles(secs: nat, events: seq<Event>, ev: Event, key: Key)
    requires Settles(Run(secs, events), ev, key)
    ensures ev.Step? && SettlesAsOwner(Run(secs, events), ev.w, key)
  {
    var s := Run(secs, events);
    ReachableInv(secs, events);
    EventWrites(s, ev);
    SettlingChange(s.db, ChangeOf(s, ev), s.leaseSeconds, key);
    SettlerIsOwner(s, ev, key);
  }

  lemma SettlerIsOwner(s: State, ev: Event, key: Key)
    requires Inv(s) && (ChangeOf(s, ev).Complete? || ChangeOf(s, ev).Abandon?) && ChangeOf(s, ev).key == key
    ensures ev.Step? && SettlesAsOwner(s, ev.w, key)
  {
    assert ev.Step? && ev.w in s.workers;
    CommitChange(s, ev.w, ev.clock, ev.reply, key);
    assert WorkerOk(s.db, ev.w, s.workers[ev.w]);
    forall x | x in s.workers && s.workers[x].token == s.workers[ev.w].token
      ensures x == ev.w
    {
      TokenIdentifiesWorker(s, ev.w, x);
    }
  }

  lemma SettlingChange(db: Db, c: Change, secs: nat, key: Key)
    requires Sound(db, c) && (key in db.ledger ==> !db.ledger[key].Settled())
    requires key in Write(db, c, secs).ledger && Write(db, c, secs).ledger[key].Settled()
    ensures (c.Complete? || c.Abandon?) && c.key == key && key in db.ledger
  {
  }

  lemma CommitChange(s: State, w: nat, clock: int, reply: Reply, key: Key)
    requires w in s.workers
    requires var c := WorkerMove(s, w, s.workers[w], clock, reply).change; (c.Complete? || c.Abandon?) && c.key == key
    ensures (s.workers[w].pc.CommitDone? || s.workers[w].pc.CommitFailed?) && KeyOf(s.workers[w].req) == key
  {
  }

  /** Each ledger row makes at most one transition into {completed, failed}. */
  lemma {:induction false} SettledAtMostOnce(secs: nat, events: seq<Event>, key: Key)
    ensures Settlements(secs, events, key) == if SettledIn(Run(secs, events), key) then 1 else 0
  {
    if events != [] {
      var before, last := events[..|events| - 1], events[|events| - 1];
      SettledAtMostOnce(secs, before, key);
      if SettledIn(Run(secs, before), key) {
        assert before + [last] == events;
        SettledForever(secs, before, [last], key);
      }
    }
  }

  ghost predicate WrittenByAgent(db: Db, d: nat) {
    exists n: nat :: Slot(d, n) in db.versions && db.versions[Slot(d, n)].writer.Agent?
  }

  /** Drafts and ledger rows correspond one to one; an AI version exists for a draft exactly when its
      row is completed; the versions of a draft are numbered 1..current_version without gap. */
  lemma {:induction false} VersionsMatchLedger(secs: nat, events: seq<Event>, d: nat)
    requires d in Run(secs, events).db.drafts
    ensures var db := Run(secs, events).db;
      && (exists key | key in db.ledger :: db.ledger[key].draft == d)
      && (forall a, b | a in db.ledger && b in db.ledger && db.ledger[a].draft == d && db.ledger[b].draft == d :: a == b)
      && (forall n: nat :: Slot(d, n) in db.versions <==> 1 <= n <= db.drafts[d].currentVersion)
      && (forall key | key in db.ledger && db.ledger[key].draft == d ::
            db.ledger[key].status.Completed? <==> WrittenByAgent(db, d))
  {
    ReachableInv(secs, events);
    var db := Run(secs, events).db;
    assert db.drafts[d].home in db.ledger;
    forall key | key in db.ledger && db.ledger[key].draft == d
      ensures key == db.drafts[d].home
      ensures db.ledger[key].status.Completed? <==> WrittenByAgent(db, d)
    {
      assert Homed(db, key) && RowOk(db, db.ledger[key]);
    }
  }

  /** Every AI version is that of a worker whose settling commit went through: a stale owner, a conflict, a worker
      still running or one that crashed before that commit leaves none. The commit and the answer are one step, so
      the answer stands for a crash between them as well. */
  lemma {:induction false} OnlySuccessLeavesAVersion(secs: nat, events: seq<Event>, slot: Slot)
    requires slot in Run(secs, events).db.versions && Run(secs, events).db.versions[slot].writer.Agent?
    ensures var s := Run(secs, events);
      var w := s.db.versions[slot].writer.worker;
      && slot.number == 1
      && w in s.workers && s.workers[w].pc.Done? && s.workers[w].pc.answer.Created?
      && s.workers[w].pc.answer.response.draft == slot.draft
      && s.workers[w].pc.answer.response.content == s.db.versions[slot].content
  {
    ReachableInv(secs, events);
    var s := Run(secs, events);
    var w := s.db.versions[slot].writer.worker;
    assert IsAuthor(s, w, slot.draft);
    assert WorkerOk(s.db, w, s.workers[w]);
    var key := KeyOf(s.workers[w].req);
    assert Homed(s.db, key) && RowOk(s.db, s.db.ledger[key]);
  }

  predicate Succeeded(k: Worker, r: Response) {
    k.pc == Done(Created(r)) || k.pc == Done(Replayed(r))
  }

  /** All successful answers under one key are equal, and at most one of them is not a replay. */
  lemma {:induction false} SameKeySameAnswer(secs: nat, events: seq<Event>, a: nat, b: nat, ra: Response, rb: Response)
    requires var s := Run(secs, events);
      && a in s.workers && b in s.workers && KeyOf(s.workers[a].req) == KeyOf(s.workers[b].req)
      && Succeeded(s.workers[a], ra) && Succeeded(s.workers[b], rb)
    ensures var s := Run(secs, events);
      && ra == rb && Alike(s.workers[a].req, s.workers[b].req)
      && (s.workers[a].pc.answer.Created? && s.workers[b].pc.answer.Created? ==> a == b)
  {
    ReachableInv(secs, events);
    var s := Run(secs, events);
    assert WorkerOk(s.db, a, s.workers[a]) && WorkerOk(s.db, b, s.workers[b]);
    DigestIsExact(s.workers[a].req, s.workers[b].req);
  }

  /** Project ids as the program makes them never hold the colon that separates the parts of a key. */
  predicate PlainProject(g: Digest) {
    ':' !in g.project
  }

  /** Of two successful answers: they are about one draft exactly if tenant, project and request id are the same, and
      then they are equal, the whole request was the same, and at most one of them is not a replay. */
  lemma {:induction false} SameRequestSameAnswer(secs: nat, events: seq<Event>, a: nat, b: nat, ra: Response, rb: Response)
    requires var s := Run(secs, events);
      && a in s.workers && b in s.workers && Succeeded(s.workers[a], ra) && Succeeded(s.workers[b], rb)
      && PlainProject(DigestOf(s.workers[a].req)) && PlainProject(DigestOf(s.workers[b].req))
    ensures var s := Run(secs, events);
      var g, h := DigestOf(s.workers[a].req), DigestOf(s.workers[b].req);
      && (SameRequest(g, h) <==> ra.draft == rb.draft)
      && (SameRequest(g, h) ==>
            ra == rb && g == h && (s.workers[a].pc.answer.Created? && s.workers[b].pc.answer.Created? ==> a == b))
  {
    ReachableInv(secs, events);
    var s := Run(secs, events);
    KeyNamesRequest(DigestOf(s.workers[a].req), DigestOf(s.workers[b].req));
    SuccessIsStored(s, a, ra);
    SuccessIsStored(s, b, rb);
    if SameRequest(DigestOf(s.workers[a].req), DigestOf(s.workers[b].req)) {
      SameKeySameAnswer(secs, events, a, b, ra, rb);
    }
  }

  lemma SuccessIsStored(s: State, w: nat, r: Response)
    requires Inv(s) && w in s.workers && Succeeded(s.workers[w], r)
    ensures var key := KeyOf(s.workers[w].req);
      && key in s.db.ledger && s.db.ledger[key].draft == r.draft
      && r.draft in s.db.drafts && s.db.drafts[r.draft].home == key
  {
    assert WorkerOk(s.db, w, s.workers[w]);
    var key := KeyOf(s.workers[w].req);
    assert Homed(s.db, key) && RowOk(s.db, s.db.ledger[key]);
  }

  /** Two ledger rows, and likewise their drafts, are one exactly if tenant, project and request id are the same. */
  lemma {:induction false} OneDraftPerRequest(secs: nat, events: seq<Event>, x: Key, y: Key)
    requires var db := Run(secs, events).db;
      x in db.ledger && y in db.ledger && PlainProject(db.ledger[x].digest) && PlainProject(db.ledger[y].digest)
    ensures var db := Run(secs, events).db;
      && (x == y <==> SameRequest(db.ledger[x].digest, db.ledger[y].digest))
      && (x == y <==> db.ledger[x].draft == db.ledger[y].draft)
  {
    ReachableInv(secs, events);
    var db := Run(secs, events).db;
    assert Homed(db, x) && Homed(db, y);
    KeyNamesRequest(db.ledger[x].digest, db.ledger[y].digest);
  }

  /** A request that reuses a key with different material is only ever told so, or refused before it
      reached the ledger. */
  lemma {:induction false} DifferentDigestConflicts(secs: nat, events: seq<Event>, w: nat)
    requires var s := Run(secs, events);
      && w in s.workers && s.workers[w].pc.Done? && KeyOf(s.workers[w].req) in s.db.ledger
      && s.db.ledger[KeyOf(s.workers[w].req)].digest != DigestOf(s.workers[w].req)
    ensures var a := Run(secs, events).workers[w].pc.answer; a.KeyReused? || a.Unprocessable?
  {
    ReachableInv(secs, events);
    var s := Run(secs, events);
    assert WorkerOk(s.db, w, s.workers[w]);
  }

  /** Once a key has failed it stays failed: no worker ever succeeds on it. */
  lemma {:induction false} FailedKeyNeverSucceeds(secs: nat, events: seq<Event>, more: seq<Event>, w: nat, r: Response)
    requires var s := Run(secs, events + more);
      && w in s.workers && KeyOf(s.workers[w].req) in Run(secs, events).db.ledger
      && Run(secs, events).db.ledger[KeyOf(s.workers[w].req)].status.Failed?
    ensures !Succeeded(Run(secs, events + more).workers[w], r)
  {
    var s := Run(secs, events + more);
    SettledForever(secs, events, more, KeyOf(s.workers[w].req));
    ReachableInv(secs, events + more);
    assert WorkerOk(s.db, w, s.workers[w]);
    assert RowOk(s.db, s.db.ledger[KeyOf(s.workers[w].req)]);
  }

  // ----- leases

  /** The event grants a lease on the row under `key`, at the acquirer's clock reading. */
  predicate Wins(s: State, ev: Event, key: Key) {
    ChangeOf(s, ev).Lease? && ChangeOf(s, ev).key == key
  }

  function LeasesGranted(secs: nat, events: seq<Event>, key: Key): nat {
    if events == [] then 0
    else
      var before := events[..|events| - 1];
      LeasesGranted(secs, before, key) + if Wins(Run(secs, before), events[|events| - 1], key) then 1 else 0
  }

  lemma WriteCountsAttempts(db: Db, c: Change, secs: nat, key: Key)
    requires Sound(db, c)
    ensures Attempts(Write(db, c, secs), key) == Attempts(db, key) + if c.Lease? && c.key == key then 1 else 0
  {
  }

  function Attempts(db: Db, key: Key): nat {
    if key in db.ledger then db.ledger[key].attempts else 0
  }

  /** attempt_count is the number of granted leases. */
  lemma {:induction false} AttemptsCountLeases(secs: nat, events: seq<Event>, key: Key)
    ensures LeasesGranted(secs, events, key) == Attempts(Run(secs, events).db, key)
  {
    if events != [] {
      var before, last := events[..|events| - 1], events[|events| - 1];
      AttemptsCountLeases(secs, before, key);
      var s := Run(secs, before);
      ReachableInv(secs, before);
      EventWrites(s, last);
      WriteCountsAttempts(s.db, ChangeOf(s, last), s.leaseSeconds, key);
    }
  }

  /** The row under `key` is settled, or leased at least until `until`. */
  predicate LeasedUntil(db: Db, key: Key, until: int) {
    && key in db.ledger
    && (db.ledger[key].Settled()
        || (db.ledger[key].status.Calling? && db.ledger[key].leaseExpires.Some? && db.ledger[key].leaseExpires.value >= until))
  }

  lemma WinnerReadsExpiry(s: State, w: nat, clock: int, reply: Reply, key: Key)
    requires w in s.workers && WorkerOk(s.db, w, s.workers[w])
    requires key in s.db.ledger && LeaseFieldsOk(s.db, s.db.ledger[key])
    requires var c := WorkerMove(s, w, s.workers[w], clock, reply).change; c.Lease? && c.key == key
    ensures WorkerMove(s, w, s.workers[w], clock, reply).change.now == clock
    ensures var r := s.db.ledger[key];
      r.status.Contextualized? || (r.status.Calling? && r.leaseExpires.Some? && r.leaseExpires.value <= clock)
  {
  }

  /** A lease is granted only on a row that was never leased, or whose lease has run out at the
      acquirer's reading. */
  lemma WinnersChange(s: State, ev: Event, key: Key)
    requires Inv(s) && Wins(s, ev, key)
    ensures ev.Step? && key in s.db.ledger && ChangeOf(s, ev).now == ev.clock
    ensures var r := s.db.ledger[key];
      r.status.Contextualized? || (r.status.Calling? && r.leaseExpires.Some? && r.leaseExpires.value <= ev.clock)
  {
    EventWrites(s, ev);
    assert RowOk(s.db, s.db.ledger[key]);
    assert WorkerOk(s.db, ev.w, s.workers[ev.w]);
    WinnerReadsExpiry(s, ev.w, ev.clock, ev.reply, key);
  }

  lemma WriteKeepsLease(db: Db, c: Change, secs: nat, key: Key, until: int)
    requires Sound(db, c) && LeasedUntil(db, key, until)
    requires c.Lease? && c.key == key ==> c.now + secs >= until
    ensures LeasedUntil(Write(db, c, secs), key, until)
  {
  }

  lemma {:induction false} LeaseStarts(secs: nat, events: seq<Event>, ev: Event, key: Key)
    requires Wins(Run(secs, events), ev, key)
    ensures LeasedUntil(Run(secs, events + [ev]).db, key, ev.clock + secs)
  {
    RunStep(secs, events, ev);
    ReachableInv(secs, events);
    RunKeepsLeaseSeconds(secs, events);
    EventWrites(Run(secs, events), ev);
    WinnersChange(Run(secs, events), ev, key);
  }

  lemma {:induction false} LeaseHolds(secs: nat, events: seq<Event>, ev: Event, more: seq<Event>, key: Key)
    requires Wins(Run(secs, events), ev, key)
    ensures LeasedUntil(Run(secs, events + [ev] + more).db, key, ev.clock + secs)
  {
    LeaseStarts(secs, events, ev, key);
    RunKeepsLease(secs, events + [ev], more, key, ev.clock + secs);
  }

  lemma {:induction false} RunKeepsLease(secs: nat, events: seq<Event>, more: seq<Event>, key: Key, until: int)
    requires LeasedUntil(Run(secs, events).db, key, until)
    ensures LeasedUntil(Run(secs, events + more).db, key, until)
    decreases |more|
  {
    if more == [] {
      assert events + more == events;
    } else {
      var init, last := more[..|more| - 1], more[|more| - 1];
      assert events + more == (events + init) + [last];
      RunKeepsLease(secs, events, init, key, until);
      RunStep(secs, events + init, last);
      ReachableInv(secs, events + init);
      RunKeepsLeaseSeconds(secs, events + init);
      StepKeepsLease(Run(secs, events + init), last, key, until);
    }
  }

  lemma StepKeepsLease(s: State, ev: Event, key: Key, until: int)
    requires Inv(s) && LeasedUntil(s.db, key, until)
    ensures LeasedUntil(Apply(s, ev).db, key, until)
  {
    EventWrites(s, ev);
    if Wins(s, ev, key) {
      WinnersChange(s, ev, key);
    }
    WriteKeepsLease(s.db, ChangeOf(s, ev), s.leaseSeconds, key, until);
  }

  lemma {:induction false} RunKeepsLeaseSeconds(secs: nat, events: seq<Event>)
    ensures Run(secs, events).leaseSeconds == secs
  {
    if events != [] {
      RunKeepsLeaseSeconds(secs, events[..|events| - 1]);
    }
  }

  /** Lease intervals [clock, clock + lease) of successive acquisitions of a key are disjoint and in
      order. This needs no relation between the clocks of different workers: the readings themselves
      are at least a lease apart. */
  lemma {:induction false} LeasesAreDisjoint(secs: nat, events: seq<Event>, first: Event, between: seq<Event>, second: Event, key: Key)
    requires Wins(Run(secs, events), first, key)
    requires Wins(Run(secs, events + [first] + between), second, key)
    ensures first.Step? && second.Step? && first.clock + secs <= second.clock
  {
    LeaseHolds(secs, events, first, between, key);
    ReachableInv(secs, events);
    WinnersChange(Run(secs, events), first, key);
    ReachableInv(secs, events + [first] + between);
    WinnersChange(Run(secs, events + [first] + between), second, key);
  }
}
