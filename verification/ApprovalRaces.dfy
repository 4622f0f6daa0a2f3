/** The approval calls as their statements interleave. A call reads draft, version and requests one statement
    after the other, takes no row lock, and writes everything in one commit; other calls may commit between any
    two of its statements. Every action takes one tick, and the state keeps the ticks of reads and commits as
    history.

    Commits write rows by primary key without looking at them again: only the unique keys of versions, approved
    versions and facts stop a commit. */
module ApprovalRaces {
  import Text
  import opened Wrappers
  import opened Approval

  /** A call, by the statement it executes next and what it has read so far. */
  datatype Call =
    | EditRead(scope: Scope, draft: nat, content: string)
    | EditLook(scope: Scope, draft: nat, content: string, seen: nat)
    | EditCommit(scope: Scope, draft: nat, content: string, seen: nat, stale: set<nat>, lookedAt: nat)
    | AskRead(scope: Scope, draft: nat, slot: Slot)
    | AskVersion(scope: Scope, draft: nat, slot: Slot, seen: nat, readAt: nat)
    | AskCommit(scope: Scope, draft: nat, slot: Slot, sha: Hash, readAt: nat)
    | JudgeRead(scope: Scope, draft: nat, slot: Slot, verdict: Verdict)
    | JudgeVersion(scope: Scope, draft: nat, slot: Slot, verdict: Verdict, seen: nat, readAt: nat)
    | JudgeRequest(scope: Scope, draft: nat, slot: Slot, verdict: Verdict, version: Version, seen: nat, readAt: nat)
    | JudgeCommit(scope: Scope, draft: nat, slot: Slot, verdict: Verdict, request: nat, pickedAt: nat)
    | PromoteRead(scope: Scope, candidate: nat, actor: string, key: string, value: string)
    | PromoteMax(scope: Scope, candidate: nat, actor: string, key: string, value: string)
    | PromoteCommit(scope: Scope, candidate: nat, actor: string, key: string, value: string, number: nat)
    | Ended(answer: Answer)
  {
    predicate Starts() { EditRead? || AskRead? || JudgeRead? || PromoteRead? }
  }

  /** When a version was committed and when its call had looked for awaiting requests; when the call that made a
      request had read the draft and when it committed; when the call that made a decision had read the request
      and when it committed. */
  datatype History = History(
    versionAt: map<Slot, nat>, lookedAt: map<Slot, nat>, askedAt: map<nat, nat>, madeAt: map<nat, nat>,
    pickedAt: map<nat, nat>, decidedAt: map<nat, nat>)

  datatype State = State(t: Tables, h: History, now: nat, calls: map<nat, Call>)

  datatype Action =
    | Create(scope: Scope)
    | Complete(draft: nat, content: string)
    | Begin(p: nat, call: Call)
    | Step(p: nat, clock: int, pick: Option<nat>)
    | Drop(p: nat)

  // ----- what the commits write

  function AwaitingOf(t: Tables, tenant: string, d: nat): set<nat> {
    set r | r in t.requests && t.requests[r].scope.tenant == tenant && t.requests[r].slot.draft == d
            && t.requests[r].status.Awaiting?
  }

  function InvalidateThese(requests: map<nat, Request>, stale: set<nat>): map<nat, Request> {
    map r | r in requests :: if r in stale then requests[r].(status := Invalidated) else requests[r]
  }

  /** A new version, the invalidated requests, and the two ticks of the version. */
  function WithVersion(s: State, d: nat, n: nat, content: string, stale: set<nat>, lookedAt: nat): State
    requires d in s.t.drafts
  {
    var t' := InsertVersion(s.t, d, n, content);
    s.(t := t'.(requests := InvalidateThese(s.t.requests, stale)),
       h := s.h.(versionAt := s.h.versionAt[Slot(d, n) := s.now], lookedAt := s.h.lookedAt[Slot(d, n) := lookedAt]))
  }

  function WithRequest(s: State, d: nat, r: Request, readAt: nat): State
    requires d in s.t.drafts
  {
    var id := s.t.nextId;
    s.(t := s.t.(drafts := s.t.drafts[d := s.t.drafts[d].(status := "awaiting_approval")],
                 requests := s.t.requests[id := r], nextId := id + 1),
       h := s.h.(askedAt := s.h.askedAt[id := readAt], madeAt := s.h.madeAt[id := s.now]))
  }

  function WithDecision(s: State, d: nat, scope: Scope, slot: Slot, r: nat, v: Verdict, pickedAt: nat): State
    requires d in s.t.drafts && slot in s.t.versions && r in s.t.requests
  {
    var id := s.t.nextId;
    var t' := RecordDecision(s.t, d, slot, r, v);
    s.(t := if v.Approve? then RecordApproval(t', scope, slot, id) else t',
       h := s.h.(pickedAt := s.h.pickedAt[id := pickedAt], decidedAt := s.h.decidedAt[id := s.now]))
  }

  // ----- the statements

  function Goto(s: State, p: nat, call: Call): State {
    s.(calls := s.calls[p := call])
  }

  function End(s: State, p: nat, a: Answer): State {
    Goto(s, p, Ended(a))
  }

  /** add_version */
  function EditStep(s: State, p: nat, c: Call): State
    requires c.EditRead? || c.EditLook? || c.EditCommit?
  {
    match c
    case EditRead(scope, d, content) =>
      if !DraftIn(s.t, scope, d) then End(s, p, NotFound)
      else if Text.Blank(content) then End(s, p, ContentRequired)
      else Goto(s, p, EditLook(scope, d, content, s.t.drafts[d].currentVersion))
    case EditLook(scope, d, content, seen) =>
      Goto(s, p, EditCommit(scope, d, content, seen, AwaitingOf(s.t, scope.tenant, d), s.now))
    case EditCommit(_, d, content, seen, stale, lookedAt) =>
      if d !in s.t.drafts || Slot(d, seen + 1) in s.t.versions then End(s, p, IntegrityError)
      else End(WithVersion(s, d, seen + 1, content, stale, lookedAt), p, VersionAdded(Slot(d, seen + 1)))
  }

  /** request_approval */
  function AskStep(s: State, p: nat, c: Call, clock: int): State
    requires c.AskRead? || c.AskVersion? || c.AskCommit?
  {
    match c
    case AskRead(scope, d, slot) =>
      if !DraftIn(s.t, scope, d) then End(s, p, NotFound)
      else Goto(s, p, AskVersion(scope, d, slot, s.t.drafts[d].currentVersion, s.now))
    case AskVersion(scope, d, slot, seen, readAt) =>
      if !VersionIn(s.t, scope, d, slot) then End(s, p, NotFound)
      else if slot.number != seen then End(s, p, RequiresCurrentVersion)
      else Goto(s, p, AskCommit(scope, d, slot, s.t.versions[slot].sha, readAt))
    case AskCommit(scope, d, slot, sha, readAt) =>
      if d !in s.t.drafts then End(s, p, IntegrityError)
      else End(WithRequest(s, d, Request(scope, slot, sha, Awaiting, clock), readAt), p, ApprovalRequested(s.t.nextId))
  }

  /** decide; the branch that answers ApprovalInvalidated raises before anything is written. */
  function JudgeStep(s: State, p: nat, c: Call, pick: Option<nat>): State
    requires c.JudgeRead? || c.JudgeVersion? || c.JudgeRequest? || c.JudgeCommit?
  {
    match c
    case JudgeRead(scope, d, slot, v) =>
      if !DraftIn(s.t, scope, d) then End(s, p, NotFound)
      else Goto(s, p, JudgeVersion(scope, d, slot, v, s.t.drafts[d].currentVersion, s.now))
    case JudgeVersion(scope, d, slot, v, seen, readAt) =>
      if !VersionIn(s.t, scope, d, slot) then End(s, p, NotFound)
      else Goto(s, p, JudgeRequest(scope, d, slot, v, s.t.versions[slot], seen, readAt))
    case JudgeRequest(scope, d, slot, v, version, seen, _) =>
      if !NewestAwaiting(s.t, scope, slot, pick) then s
      else if pick.None? then End(s, p, NotFound)
      else if slot.number != seen || Sha(version.content) != s.t.requests[pick.value].sha
      then End(s, p, ApprovalInvalidated)
      else Goto(s, p, JudgeCommit(scope, d, slot, v, pick.value, s.now))
    case JudgeCommit(scope, d, slot, v, r, pickedAt) =>
      if d !in s.t.drafts || slot !in s.t.versions || r !in s.t.requests || (v.Approve? && slot in s.t.approved)
      then End(s, p, IntegrityError)
      else End(WithDecision(s, d, scope, slot, r, v, pickedAt), p, DecisionRecorded(s.t.nextId))
  }

  /** approve_memory_candidate */
  ghost function PromoteStep(s: State, p: nat, c: Call): State
    requires c.PromoteRead? || c.PromoteMax? || c.PromoteCommit?
  {
    match c
    case PromoteRead(scope, x, actor, key, value) =>
      if x !in s.t.candidates || s.t.candidates[x].scope != scope || s.t.candidates[x].fact.Some? then End(s, p, NotFound)
      else if Text.Blank(key) || Text.Blank(value) then End(s, p, KeyAndValueRequired)
      else Goto(s, p, PromoteMax(scope, x, actor, Text.Strip(key), Text.Strip(value)))
    case PromoteMax(scope, x, actor, key, value) =>
      Goto(s, p, PromoteCommit(scope, x, actor, key, value, MaxOf(NumbersOf(s.t, scope, key)) + 1))
    case PromoteCommit(scope, x, actor, key, value, number) =>
      var f := FactKey(scope, key, number);
      if x !in s.t.candidates || f in s.t.facts then End(s, p, IntegrityError)
      else End(s.(t := LinkFact(s.t, x, f, actor, value)), p, FactAdded(f))
  }

  ghost function Advance(s: State, p: nat, c: Call, clock: int, pick: Option<nat>): State {
    if c.EditRead? || c.EditLook? || c.EditCommit? then EditStep(s, p, c)
    else if c.AskRead? || c.AskVersion? || c.AskCommit? then AskStep(s, p, c, clock)
    else if c.Ended? then s
    else if c.PromoteRead? || c.PromoteMax? || c.PromoteCommit? then PromoteStep(s, p, c)
    else JudgeStep(s, p, c, pick)
  }

  /** What an action does, but for the tick. The completion of create_draft is one commit of its own. */
  ghost function Effect(s: State, a: Action): State {
    match a
    case Create(scope) => s.(t := CreateDraft(s.t, scope).tables)
    case Complete(d, content) =>
      if d !in s.t.drafts || Slot(d, 1) in s.t.versions then s else WithVersion(s, d, 1, content, {}, s.now)
    case Begin(p, call) => if p in s.calls || !call.Starts() then s else Goto(s, p, call)
    case Step(p, clock, pick) => if p in s.calls then Advance(s, p, s.calls[p], clock, pick) else s
    case Drop(p) => if p in s.calls && !s.calls[p].Ended? then s.(calls := s.calls - {p}) else s
  }

  ghost function Apply(s: State, a: Action): State {
    Effect(s, a).(now := s.now + 1)
  }

  const NO_HISTORY := History(map[], map[], map[], map[], map[], map[])

  function Idle(): State {
    State(NoTables(), NO_HISTORY, 0, map[])
  }

  ghost function Interleaved(actions: seq<Action>): State {
    if actions == [] then Idle() else Apply(Interleaved(actions[..|actions| - 1]), actions[|actions| - 1])
  }
}
