/** A worker that keeps its lease and still cannot settle: a person writes version 1 of the draft while the upstream
    call runs. */
module DraftForestalled {
  import Text
  import opened Wrappers
  import opened Ledger
  import opened DraftProtocol
  import opened DraftInvariant
  import opened DraftTheorems
  import opened DraftTiming

  /** Version 1 of the row's draft is a person's. */
  predicate FirstIsPersons(s: State, key: Key) {
    && key in s.db.ledger
    && var first := Slot(s.db.ledger[key].draft, 1);
    first in s.db.versions && s.db.versions[first].writer.Human?
  }

  /** Once a person has written version 1 the request never completes, whoever acquires its row. */
  lemma {:induction false} NeverCompletes(secs: nat, events: seq<Event>, more: seq<Event>, key: Key)
    requires FirstIsPersons(Run(secs, events), key)
    ensures FirstIsPersons(Run(secs, events + more), key) && !Run(secs, events + more).db.ledger[key].status.Completed?
    decreases |more|
  {
    if more == [] {
      NoneOf(events, more);
    } else {
      var init, last := more[..|more| - 1], more[|more| - 1];
      LastOf(events, more);
      NeverCompletes(secs, events, init, key);
      RunStep(secs, events + init, last);
      ReachableInv(secs, events + init);
      FirstVersionStays(Run(secs, events + init), last, key);
    }
    ReachableInv(secs, events + more);
    assert RowOk(Run(secs, events + more).db, Run(secs, events + more).db.ledger[key]);
  }

  /** A worker at the flush that does not wait. */
  predicate Flushing(s: State, w: nat, key: Key, until: int) {
    && Leased(s, w, key, until) && s.workers[w].pc.Flush? && !Waits(s, w)
    && s.db.ledger[key].draft == s.workers[w].draft.value
  }

  lemma FlushMeets(s: State, w: nat, key: Key, until: int, clock: int, reply: Reply)
    requires Flushing(s, w, key, until)
    requires var first := Slot(s.db.ledger[key].draft, 1);
      first in s.db.versions ==> s.db.versions[first].writer.Human?
    ensures Forestalled(Apply(s, Step(w, clock, reply)), w, key) <==> FirstIsPersons(s, key)
  {
  }

  /** It is at the flush that this is decided: behind it the worker holds the draft's row lock. */
  lemma FlushDecides(s: State, w: nat, key: Key, until: int, clock: int, reply: Reply)
    requires Inv(s) && Leased(s, w, key, until) && s.workers[w].pc.Flush? && !Waits(s, w)
    ensures Forestalled(Apply(s, Step(w, clock, reply)), w, key) <==> FirstIsPersons(s, key)
  {
    LeaseIsReady(s, w, key, until);
    VersionIsPersons(s, key);
    FlushMeets(s, w, key, until, clock, reply);
  }

  /** An edit from its arrival to its commit. */
  function Edited(s: State, e: nat, tenant: string, project: string, d: nat, content: string): State {
    Apply(Apply(Apply(Apply(s, EditArrive(e, tenant, project, d, content)), EditStep(e)), EditStep(e)), EditStep(e))
  }

  lemma EditGoesThrough(s: State, e: nat, tenant: string, project: string, d: nat, content: string)
    requires e !in s.editors && DraftFree(s, d) && !Text.Blank(content)
    requires d in s.db.drafts && s.db.drafts[d].tenant == tenant && s.db.drafts[d].project == project
    requires Slot(d, s.db.drafts[d].currentVersion + 1) !in s.db.versions
    ensures var s' := Edited(s, e, tenant, project, d, content);
      var n := s.db.drafts[d].currentVersion + 1;
      && s'.workers == s.workers && s'.db == WithVersion(s.db, d, n, Version(content, Human(e)))
      && s'.editors == s.editors[e := Editor(tenant, project, d, content, Saved(n))]
  {
    var seen := s.db.drafts[d].currentVersion;
    var s1 := Apply(s, EditArrive(e, tenant, project, d, content));
    var s2 := Apply(s1, EditStep(e));
    assert s2.workers == s.workers && s2.db == s.db;
    assert s2.editors == s.editors[e := Editor(tenant, project, d, content, FlushEdit(seen))];
    assert DraftFree(s2, d);
    var s3 := Apply(s2, EditStep(e));
    assert s3.workers == s.workers && s3.db == s.db;
    assert s3.editors == s.editors[e := Editor(tenant, project, d, content, CommitEdit(seen + 1))];
  }

  lemma UnversionedDraft(s: State, key: Key)
    requires Inv(s) && key in s.db.ledger && Slot(s.db.ledger[key].draft, 1) !in s.db.versions
    ensures var d := s.db.ledger[key].draft;
      && d in s.db.drafts && s.db.drafts[d].currentVersion == 0
      && s.db.drafts[d].tenant == key.tenant && s.db.drafts[d].project == s.db.ledger[key].digest.project
  {
    assert Homed(s.db, key);
  }

  /** A worker about to flush its reply, with a live lease, no lock to wait for and no version in its way. */
  predicate AboutToFlush(s: State, w: nat, key: Key, until: int) {
    Flushing(s, w, key, until) && Slot(s.db.ledger[key].draft, 1) !in s.db.versions
  }

  /** The worker meets the version at its flush. */
  lemma FlushAfterEdit(s: State, s': State, w: nat, key: Key, until: int, e: nat, content: string, clock: int, reply: Reply)
    requires AboutToFlush(s, w, key, until) && s.db.ledger[key].draft in s.db.drafts && e !in s.editors
    requires s'.workers == s.workers
    requires s'.db == WithVersion(s.db, s.db.ledger[key].draft, 1, Version(content, Human(e)))
    requires e in s'.editors && s'.editors[e].pc.Saved? && s'.editors == s.editors[e := s'.editors[e]]
    ensures Forestalled(Apply(s', Step(w, clock, reply)), w, key)
  {
    assert DraftFree(s', s.workers[w].draft.value);
    FlushMeets(s', w, key, until, clock, reply);
  }

  lemma EditForestalls(s: State, w: nat, key: Key, until: int, e: nat, tenant: string, project: string, d: nat, content: string,
                       clock: int, reply: Reply)
    requires AboutToFlush(s, w, key, until) && e !in s.editors && !Text.Blank(content)
    requires d == s.db.ledger[key].draft && d in s.db.drafts && s.db.drafts[d].currentVersion == 0
    requires s.db.drafts[d].tenant == tenant && s.db.drafts[d].project == project
    ensures Forestalled(Apply(Edited(s, e, tenant, project, d, content), Step(w, clock, reply)), w, key)
  {
    EditGoesThrough(s, e, tenant, project, d, content);
    FlushAfterEdit(s, Edited(s, e, tenant, project, d, content), w, key, until, e, content, clock, reply);
  }

  /** A person who edits the draft before the flush is faster. */
  lemma PersonIsFaster(s: State, w: nat, key: Key, until: int, e: nat, content: string, clock: int, reply: Reply)
    requires Inv(s) && AboutToFlush(s, w, key, until) && e !in s.editors && !Text.Blank(content)
    ensures var row := s.db.ledger[key];
      Forestalled(Apply(Edited(s, e, key.tenant, row.digest.project, row.draft, content), Step(w, clock, reply)), w, key)
  {
    var row := s.db.ledger[key];
    UnversionedDraft(s, key);
    EditForestalls(s, w, key, until, e, key.tenant, row.digest.project, row.draft, content, clock, reply);
  }

  // ----- a run to the flush

  /** One worker alone. */
  function Lone(secs: nat, k: Worker, db: Db): State {
    State(secs, db, map[0 := k], map[])
  }

  lemma {:induction false} LoneStep(secs: nat, events: seq<Event>, k: Worker, db: Db, reply: Reply, m: Move)
    requires Run(secs, events) == Lone(secs, k, db) && WorkerMove(Lone(secs, k, db), 0, k, 0, reply) == m
    ensures Run(secs, events + [Step(0, 0, reply)]) == Lone(secs, m.next, Write(db, m.change, secs))
  {
    RunStep(secs, events, Step(0, 0, reply));
    assert (map[0 := k])[0 := m.next] == map[0 := m.next];
  }

  const NO_ROWS := Db(map[], map[], map[], 0, [])

  /** The tables with the draft and the row of one request. */
  function OneRow(g: Digest, status: string, row: Row, drawn: seq<nat>): Db {
    Db(map[KeyFor(g) := row], map[0 := Draft(g.tenant, g.project, status, 0, KeyFor(g))], map[], 1, drawn)
  }

  function Fresh(g: Digest): Row {
    NewRow(g.tenant, g, 0)
  }

  function LeasedRow(g: Digest, secs: nat): Row {
    Acquired(Fresh(g), 0, 0, secs)
  }

  lemma FirstWrites(g: Digest, secs: nat)
    ensures Write(NO_ROWS, NewDraft(g), secs) == OneRow(g, "contextualized", Fresh(g), [])
    ensures Write(OneRow(g, "contextualized", Fresh(g), []), Lease(KeyFor(g), 0, 0), secs)
            == OneRow(g, "contextualized", LeasedRow(g, secs), [0])
    ensures Write(OneRow(g, "contextualized", LeasedRow(g, secs), [0]), Status(0, "calling"), secs)
            == OneRow(g, "calling", LeasedRow(g, secs), [0])
  {
    assert (map[KeyFor(g) := Fresh(g)])[KeyFor(g) := LeasedRow(g, secs)] == map[KeyFor(g) := LeasedRow(g, secs)];
    var draft := Draft(g.tenant, g.project, "contextualized", 0, KeyFor(g));
    assert (map[0 := draft])[0 := draft.(status := "calling")] == map[0 := draft.(status := "calling")];
  }

  lemma {:induction false} RowIsMade(secs: nat, req: Request, correlation: string, reply: Reply) returns (events: seq<Event>)
    requires req.acceptable
    ensures var g := DigestOf(req);
      Run(secs, events) == Lone(secs, Worker(req, correlation, Some(0), None, Acquire), OneRow(g, "contextualized", Fresh(g), []))
  {
    var g := DigestOf(req);
    var k := Worker(req, correlation, None, None, Find);
    FirstWrites(g, secs);
    events := [Arrive(0, req, correlation)];
    RunStep(secs, [], events[0]);
    assert [] + events == events;
    LoneStep(secs, events, k, NO_ROWS, reply, Goto(k, Insert));
    events := events + [Step(0, 0, reply)];
    LoneStep(secs, events, k.(pc := Insert), NO_ROWS, reply, Move(k.(pc := Acquire, draft := Some(0)), NewDraft(g)));
    events := events + [Step(0, 0, reply)];
  }

  lemma AcquiringMoves(secs: nat, k: Worker, reply: Reply)
    requires k.draft == Some(0) && k.pc.Acquire?
    ensures var g := DigestOf(k.req);
      var s := Lone(secs, k, OneRow(g, "contextualized", Fresh(g), []));
      WorkerMove(s, 0, k, 0, reply) == Move(k.(pc := Reread(0, true), token := Some(0)), Lease(KeyFor(g), 0, 0))
  {
  }

  lemma OwningMoves(secs: nat, k: Worker, reply: Reply)
    requires k.draft == Some(0) && k.token == Some(0) && reply.Drafted?
    ensures var g := DigestOf(k.req);
      var before, db := OneRow(g, "contextualized", LeasedRow(g, secs), [0]), OneRow(g, "calling", LeasedRow(g, secs), [0]);
      var k0, k1, k2 := k.(pc := Reread(0, true)), k.(pc := Mark), k.(pc := Call);
      && WorkerMove(Lone(secs, k0, before), 0, k0, 0, reply) == Goto(k0, Mark)
      && WorkerMove(Lone(secs, k1, before), 0, k1, 0, reply) == Move(k2, Status(0, "calling"))
      && WorkerMove(Lone(secs, k2, db), 0, k2, 0, reply) == Goto(k2, Flush(reply))
  {
  }

  lemma LoneFlush(secs: nat, k: Worker, reply: Reply)
    requires k.draft == Some(0) && k.token == Some(0) && k.pc == Flush(reply)
    ensures var g := DigestOf(k.req); AboutToFlush(Lone(secs, k, OneRow(g, "calling", LeasedRow(g, secs), [0])), 0, KeyFor(g), secs)
  {
  }

  /** Every acceptable request can come to the flush of its reply. */
  lemma {:induction false} FlushIsReached(secs: nat, req: Request, correlation: string, reply: Reply) returns (events: seq<Event>)
    requires req.acceptable && reply.Drafted?
    ensures AboutToFlush(Run(secs, events), 0, KeyOf(req), secs) && Run(secs, events).editors == map[]
  {
    var g := DigestOf(req);
    var k := Worker(req, correlation, Some(0), None, Acquire);
    var owner := k.(token := Some(0));
    events := RowIsMade(secs, req, correlation, reply);
    FirstWrites(g, secs);
    AcquiringMoves(secs, k, reply);
    LoneStep(secs, events, k, OneRow(g, "contextualized", Fresh(g), []), reply,
             Move(owner.(pc := Reread(0, true)), Lease(KeyFor(g), 0, 0)));
    events := events + [Step(0, 0, reply)];
    events := OwnerFlushes(secs, events, owner, reply);
    LoneFlush(secs, owner.(pc := Flush(reply)), reply);
  }

  lemma {:induction false} OwnerFlushes(secs: nat, events: seq<Event>, k: Worker, reply: Reply) returns (events': seq<Event>)
    requires k.draft == Some(0) && k.token == Some(0) && reply.Drafted?
    requires var g := DigestOf(k.req);
      Run(secs, events) == Lone(secs, k.(pc := Reread(0, true)), OneRow(g, "contextualized", LeasedRow(g, secs), [0]))
    ensures var g := DigestOf(k.req);
      Run(secs, events') == Lone(secs, k.(pc := Flush(reply)), OneRow(g, "calling", LeasedRow(g, secs), [0]))
  {
    var g := DigestOf(k.req);
    var before, db := OneRow(g, "contextualized", LeasedRow(g, secs), [0]), OneRow(g, "calling", LeasedRow(g, secs), [0]);
    FirstWrites(g, secs);
    OwningMoves(secs, k, reply);
    LoneStep(secs, events, k.(pc := Reread(0, true)), before, reply, Goto(k.(pc := Reread(0, true)), Mark));
    events' := events + [Step(0, 0, reply)];
    LoneStep(secs, events', k.(pc := Mark), before, reply, Move(k.(pc := Call), Status(0, "calling")));
    events' := events' + [Step(0, 0, reply)];
    LoneStep(secs, events', k.(pc := Call), db, reply, Goto(k.(pc := Call), Flush(reply)));
    events' := events' + [Step(0, 0, reply)];
  }
}
