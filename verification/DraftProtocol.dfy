/**
 Concurrent draft creation on top of the ledger, as small steps over a shared database.

 A worker is one call of create_draft; an editor is one call of add_version. Each step is one
 statement or one commit: it moves the program counter of its owner and issues at most one change
 of the database. Uncommitted work lives in the program counter, so a crash drops it. Every clock
 reading is an argument of the step that takes it: nothing relates the readings of different steps.
 A worker or editor that would wait for a row lock stutters.

 A run is any sequence of events from the empty database.
*/
module DraftProtocol {
  import Text
  import opened Wrappers
  import opened Ledger

  /** `home` is history: the key whose ledger row was inserted together with the draft. */
  datatype Draft = Draft(tenant: string, project: string, status: string, currentVersion: nat, home: Key)

  /** Who wrote a version: the AI reply of a worker, or a person. */
  datatype Writer = Agent(worker: nat) | Human(editor: nat)

  datatype Version = Version(content: string, writer: Writer)

  /** The unique key of draft versions. */
  datatype Slot = Slot(draft: nat, number: nat)

  /** The tables, the next fresh draft id, and who drew each owner token so far: the next fresh
      token is the length of `drawn`. */
  datatype Db = Db(
    ledger: map<Key, Row>, drafts: map<nat, Draft>, versions: map<Slot, Version>,
    nextDraft: nat, drawn: seq<nat>)

  /** How the upstream call ends. */
  datatype Reply =
    | Drafted(content: string, upstream: int, latency: int, retries: int)
    | Refused(code: string)

  datatype Answer =
    | Created(response: Response) | Replayed(response: Response) | Unavailable | KeyReused | StillRunning
    | ClaimLost | OwnershipGone | VersionExists | StateInconsistent | WinnerInvisible | RowDisappeared
    | Unprocessable

  datatype Pc =
    | Find                                  // read the ledger by key
    | Insert                                // commit draft and ledger row together
    | Recover                               // the insert lost; read the winner
    | Acquire                               // the lease UPDATE and its commit
    | Reread(now: int, won: bool)           // read the row back after that commit
    | Mark                                  // commit draft.status, unguarded by ownership
    | Call                                  // outside any transaction
    | Flush(reply: Reply)                   // write draft and version 1; takes the draft row lock
    | Finalize(reply: Reply)                // the completing UPDATE
    | CommitDone(reply: Reply, dbNow: int)  // it matched: the ledger row is locked until the commit
    | Fail(code: string)                    // the failing UPDATE
    | CommitFailed(code: string, dbNow: int)
    | Done(answer: Answer)
    | Crashed

  datatype Worker = Worker(req: Request, correlation: string, draft: Option<nat>, token: Option<nat>, pc: Pc)

  datatype EditPc = Load | FlushEdit(seen: nat) | CommitEdit(number: nat) | Saved(number: nat) | Rejected | EditCrashed

  datatype Editor = Editor(tenant: string, project: string, draft: nat, content: string, pc: EditPc)

  datatype State = State(leaseSeconds: nat, db: Db, workers: map<nat, Worker>, editors: map<nat, Editor>)

  datatype Event =
    | Arrive(w: nat, req: Request, correlation: string)
    | Step(w: nat, clock: int, reply: Reply)
    | Crash(w: nat)
    | EditArrive(e: nat, tenant: string, project: string, draft: nat, content: string)
    | EditStep(e: nat)
    | EditCrash(e: nat)

  // ----- what a commit writes

  datatype Change =
    | Nothing
    | NewDraft(digest: Digest)
    | DrawToken(worker: nat)
    | Lease(key: Key, worker: nat, now: int)
    | Status(draft: nat, status: string)
    | Complete(key: Key, draft: nat, worker: nat, reply: Reply, response: Response, dbNow: int)
    | Abandon(key: Key, draft: nat, code: string, dbNow: int)
    | NewVersion(draft: nat, number: nat, content: string, editor: nat)

  function WithStatus(drafts: map<nat, Draft>, d: nat, status: string): map<nat, Draft> {
    if d in drafts then drafts[d := drafts[d].(status := status)] else drafts
  }

  function WithVersion(db: Db, d: nat, n: nat, v: Version): Db {
    if d in db.drafts
    then db.(drafts := db.drafts[d := db.drafts[d].(currentVersion := n, status := "criticized")],
             versions := db.versions[Slot(d, n) := v])
    else db
  }

  function Write(db: Db, c: Change, leaseSeconds: nat): Db {
    match c
    case Nothing => db
    case NewDraft(g) =>
      db.(ledger := db.ledger[KeyFor(g) := NewRow(g.tenant, g, db.nextDraft)],
          drafts := db.drafts[db.nextDraft := Draft(g.tenant, g.project, "contextualized", 0, KeyFor(g))],
          nextDraft := db.nextDraft + 1)
    case DrawToken(w) => db.(drawn := db.drawn + [w])
    case Lease(key, w, now) =>
      if key in db.ledger
      then db.(ledger := db.ledger[key := Acquired(db.ledger[key], |db.drawn|, now, leaseSeconds)],
               drawn := db.drawn + [w])
      else db
    case Status(d, status) => db.(drafts := WithStatus(db.drafts, d, status))
    case Complete(key, d, w, reply, response, dbNow) =>
      if key in db.ledger && reply.Drafted?
      then WithVersion(db.(ledger := db.ledger[key := CompletedRow(db.ledger[key], reply.upstream, response,
                                                                   reply.latency, reply.retries, dbNow)]),
                       d, 1, Version(reply.content, Agent(w)))
      else db
    case Abandon(key, d, code, dbNow) =>
      if key in db.ledger
      then db.(ledger := db.ledger[key := FailedRow(db.ledger[key], code, dbNow)],
               drafts := WithStatus(db.drafts, d, "failed"))
      else db
    case NewVersion(d, n, content, e) => WithVersion(db, d, n, Version(content, Human(e)))
  }

  // ----- locks held by uncommitted work

  predicate WorkerHolds(k: Worker, d: nat) {
    k.draft == Some(d) && (k.pc.Finalize? || k.pc.CommitDone? || k.pc.CommitFailed?)
  }

  predicate EditorHolds(e: Editor, d: nat) {
    e.draft == d && e.pc.CommitEdit?
  }

  predicate DraftFree(s: State, d: nat) {
    && (forall w | w in s.workers :: !WorkerHolds(s.workers[w], d))
    && (forall e | e in s.editors :: !EditorHolds(s.editors[e], d))
  }

  predicate Settling(k: Worker, key: Key) {
    KeyOf(k.req) == key && (k.pc.CommitDone? || k.pc.CommitFailed?)
  }

  predicate RowFree(s: State, key: Key) {
    forall w | w in s.workers :: !Settling(s.workers[w], key)
  }

  // ----- the steps of a worker

  /** Where the worker goes and what its step commits. */
  datatype Move = Move(next: Worker, change: Change)

  function Answered(k: Worker, a: Answer): Move {
    Move(k.(pc := Done(a)), Nothing)
  }

  function Goto(k: Worker, pc: Pc): Move {
    Move(k.(pc := pc), Nothing)
  }

  /** Answer with the stored response of a row that a claim reported as a replay. */
  function Replay(k: Worker, row: Row): Move {
    if row.outcome.response.Some? then Answered(k, Replayed(row.outcome.response.value)) else Answered(k, StateInconsistent)
  }

  /** A request that meets an existing row: replay, refuse, or enter the lease state machine. */
  function MeetRow(db: Db, k: Worker, row: Row): Move {
    match WinnerClaim(row, DigestOf(k.req))
    case Err(_) => Answered(k, KeyReused)
    case Ok(claim) =>
      if claim.disposition.Replay? then Replay(k, row)
      else if claim.disposition.FailedBefore? then Answered(k, Unavailable)
      else if row.draft in db.drafts && db.drafts[row.draft].tenant == k.req.tenant
              && db.drafts[row.draft].project == k.req.project
      then Move(k.(pc := Acquire, draft := Some(row.draft)), Nothing)
      else Answered(k, StateInconsistent)
  }

  function DoReread(row: Row, k: Worker, token: nat): Move
    requires k.pc.Reread?
  {
    match LeaseClaim(row, token, k.pc.won, k.pc.now)
    case Err(_) => Answered(k, ClaimLost)
    case Ok(claim) =>
      if claim.disposition.AcquiredLease? then Goto(k, Mark)
      else if claim.disposition.Replay? then Replay(k, row)
      else if claim.disposition.FailedBefore? then Answered(k, Unavailable)
      else Answered(k, StillRunning)
  }

  /** Steps up to the lease; `key` is the worker's key. */
  function ClaimStep(s: State, w: nat, k: Worker, key: Key, clock: int): Move {
    if key !in s.db.ledger then
      match k.pc
      case Find => if k.req.acceptable then Goto(k, Insert) else Answered(k, Unprocessable)
      case Insert => Move(k.(pc := Acquire, draft := Some(s.db.nextDraft)), NewDraft(DigestOf(k.req)))
      case Recover => Answered(k, WinnerInvisible)
      case _ => Answered(k, RowDisappeared)
    else
      var row := s.db.ledger[key];
      match k.pc
      case Find => MeetRow(s.db, k, row)
      case Insert => Goto(k, Recover)
      case Recover => MeetRow(s.db, k, row)
      case Acquire =>
        if !RowFree(s, key) then Move(k, Nothing)
        else
          var token := |s.db.drawn|;
          var won := CanAcquire(row, k.req.tenant, DigestOf(k.req), token, clock);
          Move(k.(pc := Reread(clock, won), token := Some(token)), if won then Lease(key, w, clock) else DrawToken(w))
      case Reread(_, _) => if k.token.Some? then DoReread(row, k, k.token.value) else Answered(k, ClaimLost)
      case _ => Move(k, Nothing)
  }

  function ResponseFor(k: Worker, d: nat, reply: Reply): Response
    requires reply.Drafted?
  {
    Response(d, reply.content, k.req.requestId, k.correlation, reply.retries)
  }

  /** Steps of a worker that was granted the lease on `row` under `key`, for draft `d`. */
  function OwnerStep(s: State, w: nat, k: Worker, key: Key, row: Row, d: nat, token: nat, clock: int, reply: Reply): Move {
    match k.pc
    case Mark =>
      if DraftFree(s, d) then Move(k.(pc := Call), Status(d, "calling")) else Move(k, Nothing)
    case Call =>
      if reply.Drafted? then Goto(k, Flush(reply)) else Goto(k, Fail(reply.code))
    case Flush(r) =>
      if !DraftFree(s, d) then Move(k, Nothing)
      else if Slot(d, 1) in s.db.versions then Answered(k, VersionExists)
      else Goto(k, Finalize(r))
    case Finalize(r) =>
      if !RowFree(s, key) then Move(k, Nothing)
      else if OwnsLiveLease(row, k.req.tenant, token, clock) then Goto(k, CommitDone(r, clock))
      else Answered(k, OwnershipGone)
    case CommitDone(r, dbNow) =>
      if r.Drafted?
      then Move(k.(pc := Done(Created(ResponseFor(k, d, r)))), Complete(key, d, w, r, ResponseFor(k, d, r), dbNow))
      else Move(k, Nothing)
    case Fail(code) =>
      if !RowFree(s, key) || !DraftFree(s, d) then Move(k, Nothing)
      else if OwnsLiveLease(row, k.req.tenant, token, clock) then Goto(k, CommitFailed(code, clock))
      else Answered(k, OwnershipGone)
    case CommitFailed(code, dbNow) =>
      Move(k.(pc := Done(Unavailable)), Abandon(key, d, code, dbNow))
    case _ => Move(k, Nothing)
  }

  predicate Owning(pc: Pc) {
    pc.Mark? || pc.Call? || pc.Flush? || pc.Finalize? || pc.CommitDone? || pc.Fail? || pc.CommitFailed?
  }

  function WorkerMove(s: State, w: nat, k: Worker, clock: int, reply: Reply): Move {
    var key := KeyOf(k.req);
    if Owning(k.pc) then
      if key in s.db.ledger && k.draft.Some? && k.token.Some?
      then OwnerStep(s, w, k, key, s.db.ledger[key], k.draft.value, k.token.value, clock, reply)
      else Answered(k, StateInconsistent)
    else if k.pc.Done? || k.pc.Crashed? then Move(k, Nothing)
    else ClaimStep(s, w, k, key, clock)
  }

  // ----- the steps of an editor

  datatype EditMove = EditMove(next: Editor, change: Change)

  function EditorMove(s: State, e: nat, ed: Editor): EditMove {
    match ed.pc
    case Load =>
      if ed.draft in s.db.drafts && s.db.drafts[ed.draft].tenant == ed.tenant
         && s.db.drafts[ed.draft].project == ed.project && !Text.Blank(ed.content)
      then EditMove(ed.(pc := FlushEdit(s.db.drafts[ed.draft].currentVersion)), Nothing)
      else EditMove(ed.(pc := Rejected), Nothing)
    case FlushEdit(seen) =>
      if !DraftFree(s, ed.draft) then EditMove(ed, Nothing)
      else if Slot(ed.draft, seen + 1) in s.db.versions then EditMove(ed.(pc := Rejected), Nothing)
      else EditMove(ed.(pc := CommitEdit(seen + 1)), Nothing)
    case CommitEdit(number) =>
      EditMove(ed.(pc := Saved(number)), NewVersion(ed.draft, number, ed.content, e))
    case _ => EditMove(ed, Nothing)
  }

  // ----- events and runs

  function Moved(s: State, w: nat, m: Move): State {
    s.(db := Write(s.db, m.change, s.leaseSeconds), workers := s.workers[w := m.next])
  }

  function EditMoved(s: State, e: nat, m: EditMove): State {
    s.(db := Write(s.db, m.change, s.leaseSeconds), editors := s.editors[e := m.next])
  }

  function Apply(s: State, ev: Event): State {
    match ev
    case Arrive(w, req, correlation) =>
      if w in s.workers then s else Moved(s, w, Move(Worker(req, correlation, None, None, Find), Nothing))
    case Step(w, clock, reply) =>
      if w in s.workers then Moved(s, w, WorkerMove(s, w, s.workers[w], clock, reply)) else s
    case Crash(w) =>
      if w in s.workers && !s.workers[w].pc.Done? then Moved(s, w, Goto(s.workers[w], Crashed)) else s
    case EditArrive(e, tenant, project, draft, content) =>
      if e in s.editors then s else EditMoved(s, e, EditMove(Editor(tenant, project, draft, content, Load), Nothing))
    case EditStep(e) =>
      if e in s.editors then EditMoved(s, e, EditorMove(s, e, s.editors[e])) else s
    case EditCrash(e) =>
      if e in s.editors && !s.editors[e].pc.Saved?
      then EditMoved(s, e, EditMove(s.editors[e].(pc := EditCrashed), Nothing)) else s
  }

  function Empty(leaseSeconds: nat): State {
    State(leaseSeconds, Db(map[], map[], map[], 0, []), map[], map[])
  }

  function Run(leaseSeconds: nat, events: seq<Event>): State {
    if events == [] then Empty(leaseSeconds)
    else Apply(Run(leaseSeconds, events[..|events| - 1]), events[|events| - 1])
  }
}
