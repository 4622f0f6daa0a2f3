/**
 Versions, approvals and project memory: how a text becomes an approved version and an approved
 version becomes a memory fact.

 Here calls do not overlap: each operation is one step, which yields the tables it leaves behind and what
 it answers. An operation that raises leaves the tables as they were. ApprovalRaces runs the statements
 of several calls between one another.
*/
module Approval {
  import Text
  import opened Wrappers

  /** The tenant and project every query filters on. */
  datatype Scope = Scope(tenant: string, project: string)

  /** SHA-256 of a text, taken as injective. */
  datatype Hash = Sha(text: string)

  /** A draft version, identified by the columns of its unique key. */
  datatype Slot = Slot(draft: nat, number: nat)

  datatype Draft = Draft(scope: Scope, status: string, currentVersion: nat)

  datatype Version = Version(scope: Scope, content: string, sha: Hash)

  datatype Verdict = Approve | Reject

  datatype RequestStatus = Awaiting | Decided(verdict: Verdict) | Invalidated

  datatype Request = Request(scope: Scope, slot: Slot, sha: Hash, status: RequestStatus, createdAt: int)

  datatype Decision = Decision(request: nat, slot: Slot, verdict: Verdict, approvedSha: Option<Hash>)

  /** `candidate` is history: the memory candidate created in the same transaction. */
  datatype Approved = Approved(scope: Scope, decision: nat, content: string, sha: Hash, candidate: nat)

  /** A memory fact, identified by the columns of its unique key. */
  datatype FactKey = FactKey(scope: Scope, key: string, number: nat)

  /** `fact` is history: the fact this candidate was promoted to. */
  datatype Candidate = Candidate(scope: Scope, source: Slot, sha: Hash, fact: Option<FactKey>)

  /** `candidate` is history: the candidate this fact was promoted from. */
  datatype Fact = Fact(value: string, source: Slot, approvedBy: string, candidate: nat)

  datatype Tables = Tables(
    drafts: map<nat, Draft>, versions: map<Slot, Version>, requests: map<nat, Request>,
    decisions: map<nat, Decision>, approved: map<Slot, Approved>,
    candidates: map<nat, Candidate>, facts: map<FactKey, Fact>, nextId: nat)

  datatype Answer =
    | DraftCreated(draft: nat) | VersionAdded(slot: Slot) | ApprovalRequested(request: nat)
    | DecisionRecorded(decision: nat) | FactAdded(fact: FactKey)
    | NotFound | ContentRequired | RequiresCurrentVersion | ApprovalInvalidated | KeyAndValueRequired | IntegrityError

  datatype Outcome = Outcome(tables: Tables, answer: Answer)

  function Refuse(t: Tables, a: Answer): Outcome {
    Outcome(t, a)
  }

  // ----- versions

  predicate DraftIn(t: Tables, scope: Scope, d: nat) {
    d in t.drafts && t.drafts[d].scope == scope
  }

  predicate VersionIn(t: Tables, scope: Scope, d: nat, slot: Slot) {
    slot in t.versions && slot.draft == d && t.versions[slot].scope == scope
  }

  function CreateDraft(t: Tables, scope: Scope): Outcome {
    Outcome(t.(drafts := t.drafts[t.nextId := Draft(scope, "contextualized", 0)], nextId := t.nextId + 1),
            DraftCreated(t.nextId))
  }

  function InsertVersion(t: Tables, d: nat, n: nat, content: string): Tables
    requires d in t.drafts
  {
    var draft := t.drafts[d];
    t.(drafts := t.drafts[d := draft.(currentVersion := n, status := "criticized")],
       versions := t.versions[Slot(d, n) := Version(draft.scope, content, Sha(content))])
  }

  /** The completion of create_draft: version 1 by the AI. */
  function CompleteDraft(t: Tables, d: nat, content: string): Outcome {
    if d !in t.drafts then Refuse(t, NotFound)
    else if Slot(d, 1) in t.versions then Refuse(t, IntegrityError)
    else Outcome(InsertVersion(t, d, 1, content), VersionAdded(Slot(d, 1)))
  }

  function Invalidate(requests: map<nat, Request>, tenant: string, d: nat): map<nat, Request> {
    map r | r in requests ::
      if requests[r].scope.tenant == tenant && requests[r].slot.draft == d && requests[r].status.Awaiting?
      then requests[r].(status := Invalidated) else requests[r]
  }

  function AddVersion(t: Tables, scope: Scope, d: nat, content: string): Outcome {
    if !DraftIn(t, scope, d) then Refuse(t, NotFound)
    else if Text.Blank(content) then Refuse(t, ContentRequired)
    else
      var n := t.drafts[d].currentVersion + 1;
      if Slot(d, n) in t.versions then Refuse(t, IntegrityError)
      else
        var t' := InsertVersion(t, d, n, content);
        Outcome(t'.(requests := Invalidate(t.requests, scope.tenant, d)), VersionAdded(Slot(d, n)))
  }

  // ----- approvals

  function RequestApproval(t: Tables, scope: Scope, d: nat, slot: Slot, now: int): Outcome {
    if !DraftIn(t, scope, d) || !VersionIn(t, scope, d, slot) then Refuse(t, NotFound)
    else if slot.number != t.drafts[d].currentVersion then Refuse(t, RequiresCurrentVersion)
    else
      Outcome(t.(drafts := t.drafts[d := t.drafts[d].(status := "awaiting_approval")],
                 requests := t.requests[t.nextId := Request(scope, slot, t.versions[slot].sha, Awaiting, now)],
                 nextId := t.nextId + 1),
              ApprovalRequested(t.nextId))
  }

  predicate AwaitingFor(t: Tables, scope: Scope, slot: Slot, r: nat) {
    r in t.requests && t.requests[r].scope == scope && t.requests[r].slot == slot && t.requests[r].status.Awaiting?
  }

  /** What the query for the newest awaiting request may return: the order of equally new ones is left
      to the database. */
  predicate NewestAwaiting(t: Tables, scope: Scope, slot: Slot, pick: Option<nat>) {
    match pick
    case None => forall r | r in t.requests :: !AwaitingFor(t, scope, slot, r)
    case Some(p) =>
      AwaitingFor(t, scope, slot, p)
      && forall r | r in t.requests && AwaitingFor(t, scope, slot, r) :: t.requests[r].createdAt <= t.requests[p].createdAt
  }

  function StatusOf(v: Verdict): string {
    if v.Approve? then "approved" else "rejected"
  }

  function RecordDecision(t: Tables, d: nat, slot: Slot, r: nat, v: Verdict): Tables
    requires d in t.drafts && slot in t.versions && r in t.requests
  {
    t.(drafts := t.drafts[d := t.drafts[d].(status := StatusOf(v))],
       requests := t.requests[r := t.requests[r].(status := Decided(v))],
       decisions := t.decisions[t.nextId := Decision(r, slot, v, if v.Approve? then Some(t.versions[slot].sha) else None)],
       nextId := t.nextId + 1)
  }

  function RecordApproval(t: Tables, scope: Scope, slot: Slot, decision: nat): Tables
    requires slot in t.versions
  {
    var v := t.versions[slot];
    t.(approved := t.approved[slot := Approved(scope, decision, v.content, v.sha, t.nextId)],
       candidates := t.candidates[t.nextId := Candidate(scope, slot, v.sha, None)],
       nextId := t.nextId + 1)
  }

  function Decide(t: Tables, scope: Scope, d: nat, slot: Slot, pick: Option<nat>, v: Verdict): Outcome {
    if !DraftIn(t, scope, d) || !VersionIn(t, scope, d, slot) || pick.None? || pick.value !in t.requests
    then Refuse(t, NotFound)
    else if slot.number != t.drafts[d].currentVersion || Sha(t.versions[slot].content) != t.requests[pick.value].sha
    then Refuse(t, ApprovalInvalidated)
    else
      var t' := RecordDecision(t, d, slot, pick.value, v);
      if v.Reject? then Outcome(t', DecisionRecorded(t.nextId))
      else if slot in t.approved then Refuse(t, IntegrityError)
      else Outcome(RecordApproval(t', scope, slot, t.nextId), DecisionRecorded(t.nextId))
  }

  // ----- memory

  /** The largest element, or 0. */
  ghost function MaxOf(s: set<nat>): (m: nat)
    ensures forall x | x in s :: x <= m
    ensures s != {} ==> m in s
    ensures s == {} ==> m == 0
  {
    if s == {} then 0
    else
      var x :| x in s;
      var rest := MaxOf(s - {x});
      assert forall y | y in s :: y == x || y in s - {x};
      if rest > x then rest else x
  }

  ghost function NumbersOf(t: Tables, scope: Scope, key: string): set<nat> {
    set f | f in t.facts && f.scope == scope && f.key == key :: f.number
  }

  ghost function PromoteCandidate(t: Tables, scope: Scope, c: nat, actor: string, key: string, value: string): Outcome {
    if c !in t.candidates || t.candidates[c].scope != scope || t.candidates[c].fact.Some? then Refuse(t, NotFound)
    else if Text.Blank(key) || Text.Blank(value) then Refuse(t, KeyAndValueRequired)
    else
      var k := Text.Strip(key);
      var f := FactKey(scope, k, MaxOf(NumbersOf(t, scope, k)) + 1);
      if f in t.facts then Refuse(t, IntegrityError)
      else
        Outcome(LinkFact(t, c, f, actor, Text.Strip(value)), FactAdded(f))
  }

  function LinkFact(t: Tables, c: nat, f: FactKey, actor: string, value: string): Tables
    requires c in t.candidates
  {
    t.(candidates := t.candidates[c := t.candidates[c].(fact := Some(f))],
       facts := t.facts[f := Fact(value, t.candidates[c].source, actor, c)])
  }

  // ----- runs

  datatype Event =
    | DoCreate(scope: Scope)
    | DoComplete(draft: nat, content: string)
    | DoAddVersion(scope: Scope, draft: nat, content: string)
    | DoRequest(scope: Scope, draft: nat, slot: Slot, now: int)
    | DoDecide(scope: Scope, draft: nat, slot: Slot, pick: Option<nat>, verdict: Verdict)
    | DoPromote(scope: Scope, candidate: nat, actor: string, key: string, value: string)

  ghost function Perform(t: Tables, ev: Event): Outcome {
    match ev
    case DoCreate(scope) => CreateDraft(t, scope)
    case DoComplete(d, content) => CompleteDraft(t, d, content)
    case DoAddVersion(scope, d, content) => AddVersion(t, scope, d, content)
    case DoRequest(scope, d, slot, now) => RequestApproval(t, scope, d, slot, now)
    case DoDecide(scope, d, slot, pick, v) =>
      if NewestAwaiting(t, scope, slot, pick) then Decide(t, scope, d, slot, pick, v) else Refuse(t, NotFound)
    case DoPromote(scope, c, actor, key, value) => PromoteCandidate(t, scope, c, actor, key, value)
  }

  function NoTables(): Tables {
    Tables(map[], map[], map[], map[], map[], map[], map[], 0)
  }

  ghost function Run(events: seq<Event>): Tables {
    if events == [] then NoTables()
    else Perform(Run(events[..|events| - 1]), events[|events| - 1]).tables
  }
}
