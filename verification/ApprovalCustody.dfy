/** The chain of custody from a text to a memory fact, in every state that calls reach one after the other. */
module ApprovalCustody {
  import Text
  import opened Wrappers
  import opened Approval

  // ----- the links of the chain

  predicate VersionOk(t: Tables, slot: Slot)
    requires slot in t.versions
  {
    && slot.draft in t.drafts && t.drafts[slot.draft].scope == t.versions[slot].scope
    && 1 <= slot.number <= t.drafts[slot.draft].currentVersion
    && t.versions[slot].sha == Sha(t.versions[slot].content)
  }

  /** Versions of a draft are exactly 1..currentVersion. */
  predicate DraftOk(t: Tables, d: nat)
    requires d in t.drafts
  {
    d < t.nextId && forall n | 1 <= n <= t.drafts[d].currentVersion :: Slot(d, n) in t.versions
  }

  /** A request targets a version with that version's hash; while it awaits, the version is current. */
  predicate RequestOk(t: Tables, r: nat)
    requires r in t.requests
  {
    var q := t.requests[r];
    && r < t.nextId
    && q.slot in t.versions && q.slot.draft in t.drafts && q.scope == t.versions[q.slot].scope
    && q.sha == t.versions[q.slot].sha
    && (q.status.Awaiting? ==> q.slot.number == t.drafts[q.slot.draft].currentVersion)
  }

  predicate DecisionOk(t: Tables, x: nat)
    requires x in t.decisions
  {
    var d := t.decisions[x];
    && x < t.nextId
    && d.request in t.requests && t.requests[d.request].status == Decided(d.verdict)
    && t.requests[d.request].slot == d.slot
    && d.approvedSha == if d.verdict.Approve? then Some(t.requests[d.request].sha) else None
  }

  /** An approved version is its draft version, decided by an approval of a request for that hash. */
  predicate ApprovedOk(t: Tables, slot: Slot)
    requires slot in t.approved
  {
    var a := t.approved[slot];
    && slot in t.versions && a.scope == t.versions[slot].scope
    && a.content == t.versions[slot].content && a.sha == t.versions[slot].sha
    && a.decision in t.decisions
    && t.decisions[a.decision].slot == slot && t.decisions[a.decision].verdict.Approve?
    && t.decisions[a.decision].approvedSha == Some(a.sha)
    && a.candidate in t.candidates && t.candidates[a.candidate].source == slot
  }

  predicate CandidateOk(t: Tables, c: nat)
    requires c in t.candidates
  {
    var k := t.candidates[c];
    && c < t.nextId
    && k.source in t.approved && t.approved[k.source].candidate == c
    && k.sha == t.approved[k.source].sha && k.scope == t.approved[k.source].scope
    && (k.fact.Some? ==> k.fact.value in t.facts && t.facts[k.fact.value].candidate == c)
  }

  predicate FactOk(t: Tables, f: FactKey)
    requires f in t.facts
  {
    var x := t.facts[f];
    && 1 <= f.number && (f.number > 1 ==> FactKey(f.scope, f.key, f.number - 1) in t.facts)
    && x.candidate in t.candidates && t.candidates[x.candidate].fact == Some(f)
    && t.candidates[x.candidate].source == x.source && t.candidates[x.candidate].scope == f.scope
  }

  predicate VersionsOk(t: Tables) {
    && (forall d | d in t.drafts :: DraftOk(t, d))
    && (forall slot | slot in t.versions :: VersionOk(t, slot))
  }

  predicate RequestsOk(t: Tables) {
    forall r | r in t.requests :: RequestOk(t, r)
  }

  predicate DecisionsOk(t: Tables) {
    forall x | x in t.decisions :: DecisionOk(t, x)
  }

  predicate ApprovedAllOk(t: Tables) {
    forall slot | slot in t.approved :: ApprovedOk(t, slot)
  }

  predicate CandidatesOk(t: Tables) {
    forall c | c in t.candidates :: CandidateOk(t, c)
  }

  predicate FactsOk(t: Tables) {
    forall f | f in t.facts :: FactOk(t, f)
  }

  predicate Custody(t: Tables) {
    VersionsOk(t) && RequestsOk(t) && DecisionsOk(t) && ApprovedAllOk(t) && CandidatesOk(t) && FactsOk(t)
  }

  // ----- frames: what each link needs to stay

  lemma ApprovedStay(t: Tables, t': Tables)
    requires ApprovedAllOk(t) && t'.approved == t.approved
    requires forall slot | slot in t.versions :: slot in t'.versions && t'.versions[slot] == t.versions[slot]
    requires forall x | x in t.decisions :: x in t'.decisions && t'.decisions[x] == t.decisions[x]
    requires forall c | c in t.candidates :: c in t'.candidates && t'.candidates[c].source == t.candidates[c].source
    ensures ApprovedAllOk(t')
  {
    forall slot | slot in t'.approved
      ensures ApprovedOk(t', slot)
    {
      assert ApprovedOk(t, slot);
    }
  }

  lemma CandidatesStay(t: Tables, t': Tables)
    requires CandidatesOk(t) && t'.candidates == t.candidates && t'.facts == t.facts && t.nextId <= t'.nextId
    requires forall slot | slot in t.approved :: slot in t'.approved && t'.approved[slot] == t.approved[slot]
    ensures CandidatesOk(t')
  {
    forall c | c in t'.candidates
      ensures CandidateOk(t', c)
    {
      assert CandidateOk(t, c);
    }
  }

  lemma FactsStay(t: Tables, t': Tables)
    requires FactsOk(t) && t'.facts == t.facts
    requires forall c | c in t.candidates :: c in t'.candidates && t'.candidates[c] == t.candidates[c]
    ensures FactsOk(t')
  {
    forall f | f in t'.facts
      ensures FactOk(t', f)
    {
      assert FactOk(t, f);
    }
  }

  lemma DecisionsStay(t: Tables, t': Tables)
    requires DecisionsOk(t) && t'.decisions == t.decisions && t.nextId <= t'.nextId
    requires forall r | r in t.requests :: r in t'.requests
               && (!t.requests[r].status.Awaiting? ==> t'.requests[r] == t.requests[r])
    ensures DecisionsOk(t')
  {
    forall x | x in t'.decisions
      ensures DecisionOk(t', x)
    {
      assert DecisionOk(t, x);
    }
  }

  // ----- new versions

  lemma InsertKeepsVersions(t: Tables, d: nat, content: string)
    requires VersionsOk(t) && d in t.drafts
    ensures VersionsOk(InsertVersion(t, d, t.drafts[d].currentVersion + 1, content))
    ensures Slot(d, t.drafts[d].currentVersion + 1) !in t.versions
  {
    var n := t.drafts[d].currentVersion + 1;
    var t' := InsertVersion(t, d, n, content);
    assert Slot(d, n) in t.versions ==> VersionOk(t, Slot(d, n));
    forall x | x in t'.drafts
      ensures DraftOk(t', x)
    {
      assert DraftOk(t, x);
    }
    forall slot | slot in t'.versions
      ensures VersionOk(t', slot)
    {
      assert slot in t.versions ==> VersionOk(t, slot);
    }
  }

  lemma AddVersionKeepsRequests(t: Tables, scope: Scope, d: nat, content: string)
    requires VersionsOk(t) && RequestsOk(t)
    ensures RequestsOk(AddVersion(t, scope, d, content).tables)
  {
    var t' := AddVersion(t, scope, d, content).tables;
    forall r | r in t'.requests
      ensures RequestOk(t', r)
    {
      assert RequestOk(t, r) && VersionOk(t, t.requests[r].slot);
    }
  }

  lemma CompleteKeepsRequests(t: Tables, d: nat, content: string)
    requires VersionsOk(t) && RequestsOk(t) && d in t.drafts && Slot(d, 1) !in t.versions
    ensures t.drafts[d].currentVersion == 0
    ensures RequestsOk(InsertVersion(t, d, 1, content))
  {
    assert DraftOk(t, d);
    var t' := InsertVersion(t, d, 1, content);
    forall r | r in t'.requests
      ensures RequestOk(t', r)
    {
      assert RequestOk(t, r) && VersionOk(t, t.requests[r].slot);
    }
  }

  /** Versions only added, requests at most invalidated, nothing else touched. */
  predicate TextsGrow(t: Tables, t': Tables) {
    && t'.decisions == t.decisions && t'.approved == t.approved && t'.candidates == t.candidates && t'.facts == t.facts
    && t.nextId <= t'.nextId
    && (forall slot | slot in t.versions :: slot in t'.versions && t'.versions[slot] == t.versions[slot])
    && (forall r | r in t.requests :: r in t'.requests
          && (!t.requests[r].status.Awaiting? ==> t'.requests[r] == t.requests[r]))
  }

  lemma TextsGrowKeepsRest(t: Tables, t': Tables)
    requires TextsGrow(t, t') && DecisionsOk(t) && ApprovedAllOk(t) && CandidatesOk(t) && FactsOk(t)
    ensures DecisionsOk(t') && ApprovedAllOk(t') && CandidatesOk(t') && FactsOk(t')
  {
    DecisionsStay(t, t');
    ApprovedStay(t, t');
    CandidatesStay(t, t');
    FactsStay(t, t');
  }

  lemma AddVersionKeepsCustody(t: Tables, scope: Scope, d: nat, content: string)
    requires Custody(t)
    ensures Custody(AddVersion(t, scope, d, content).tables)
  {
    var t' := AddVersion(t, scope, d, content).tables;
    AddVersionKeepsRequests(t, scope, d, content);
    if DraftIn(t, scope, d) && !Text.Blank(content) {
      InsertKeepsVersions(t, d, content);
      assert VersionsOk(t') by {
        assert t'.(requests := t.requests) == InsertVersion(t, d, t.drafts[d].currentVersion + 1, content);
        SameVersions(InsertVersion(t, d, t.drafts[d].currentVersion + 1, content), t');
      }
    }
    TextsGrowKeepsRest(t, t');
  }

  lemma SameVersions(t: Tables, t': Tables)
    requires VersionsOk(t) && t'.versions == t.versions && t.nextId <= t'.nextId
    requires forall d | d in t'.drafts :: d < t'.nextId && (d in t.drafts || t'.drafts[d].currentVersion == 0)
    requires forall d | d in t.drafts :: d in t'.drafts && t'.drafts[d].scope == t.drafts[d].scope
                                         && t'.drafts[d].currentVersion == t.drafts[d].currentVersion
    ensures VersionsOk(t')
  {
    forall d | d in t'.drafts
      ensures DraftOk(t', d)
    {
      assert d in t.drafts ==> DraftOk(t, d);
    }
    forall slot | slot in t'.versions
      ensures VersionOk(t', slot)
    {
      assert VersionOk(t, slot);
    }
  }

  lemma CompleteKeepsCustody(t: Tables, d: nat, content: string)
    requires Custody(t)
    ensures Custody(CompleteDraft(t, d, content).tables)
  {
    if d in t.drafts && Slot(d, 1) !in t.versions {
      CompleteKeepsRequests(t, d, content);
      InsertKeepsVersions(t, d, content);
      TextsGrowKeepsRest(t, InsertVersion(t, d, 1, content));
    }
  }

  lemma CreateKeepsCustody(t: Tables, scope: Scope)
    requires Custody(t)
    ensures Custody(CreateDraft(t, scope).tables)
  {
    var t' := CreateDraft(t, scope).tables;
    assert t.nextId !in t.drafts by {
      assert t.nextId in t.drafts ==> DraftOk(t, t.nextId);
    }
    SameVersions(t, t');
    forall r | r in t'.requests
      ensures RequestOk(t', r)
    {
      assert RequestOk(t, r) && VersionOk(t, t.requests[r].slot);
    }
    TextsGrowKeepsRest(t, t');
  }

  // ----- requests and decisions

  lemma NewRequestKeepsRequests(t: Tables, scope: Scope, d: nat, slot: Slot, now: int)
    requires VersionsOk(t) && RequestsOk(t)
    ensures RequestsOk(RequestApproval(t, scope, d, slot, now).tables)
  {
    var t' := RequestApproval(t, scope, d, slot, now).tables;
    forall r | r in t'.requests
      ensures RequestOk(t', r)
    {
      assert r in t.requests ==> RequestOk(t, r);
      assert slot in t.versions ==> VersionOk(t, slot);
    }
  }

  lemma NewRequestKeepsVersions(t: Tables, scope: Scope, d: nat, slot: Slot, now: int)
    requires VersionsOk(t)
    ensures VersionsOk(RequestApproval(t, scope, d, slot, now).tables)
  {
    assert d in t.drafts ==> DraftOk(t, d);
    assert forall x | x in t.drafts :: DraftOk(t, x);
    SameVersions(t, RequestApproval(t, scope, d, slot, now).tables);
  }

  lemma NewRequestGrows(t: Tables, scope: Scope, d: nat, slot: Slot, now: int)
    requires RequestsOk(t)
    ensures TextsGrow(t, RequestApproval(t, scope, d, slot, now).tables)
  {
    assert t.nextId in t.requests ==> RequestOk(t, t.nextId);
  }

  lemma RequestKeepsCustody(t: Tables, scope: Scope, d: nat, slot: Slot, now: int)
    requires Custody(t)
    ensures Custody(RequestApproval(t, scope, d, slot, now).tables)
  {
    NewRequestKeepsRequests(t, scope, d, slot, now);
    NewRequestKeepsVersions(t, scope, d, slot, now);
    NewRequestGrows(t, scope, d, slot, now);
    TextsGrowKeepsRest(t, RequestApproval(t, scope, d, slot, now).tables);
  }

  lemma RecordDecisionKeeps(t: Tables, scope: Scope, slot: Slot, r: nat, v: Verdict)
    requires VersionsOk(t) && RequestsOk(t) && DecisionsOk(t)
    requires AwaitingFor(t, scope, slot, r) && slot in t.versions && slot.draft in t.drafts
    ensures var t' := RecordDecision(t, slot.draft, slot, r, v);
      RequestsOk(t') && DecisionsOk(t') && t.nextId !in t.decisions
  {
    var t' := RecordDecision(t, slot.draft, slot, r, v);
    assert t.nextId in t.decisions ==> DecisionOk(t, t.nextId);
    assert RequestOk(t, r);
    forall x | x in t'.requests
      ensures RequestOk(t', x)
    {
      assert RequestOk(t, x);
    }
    forall x | x in t'.decisions
      ensures DecisionOk(t', x)
    {
      assert x in t.decisions ==> DecisionOk(t, x);
    }
  }

  lemma RecordDecisionKeepsVersions(t: Tables, slot: Slot, r: nat, v: Verdict)
    requires VersionsOk(t) && slot in t.versions && slot.draft in t.drafts && r in t.requests
    ensures VersionsOk(RecordDecision(t, slot.draft, slot, r, v))
  {
    assert forall x | x in t.drafts :: DraftOk(t, x);
    SameVersions(t, RecordDecision(t, slot.draft, slot, r, v));
  }

  lemma RecordDecisionKeepsCustody(t: Tables, scope: Scope, slot: Slot, r: nat, v: Verdict)
    requires Custody(t) && AwaitingFor(t, scope, slot, r) && slot in t.versions && slot.draft in t.drafts
    ensures Custody(RecordDecision(t, slot.draft, slot, r, v))
  {
    var t' := RecordDecision(t, slot.draft, slot, r, v);
    RecordDecisionKeeps(t, scope, slot, r, v);
    RecordDecisionKeepsVersions(t, slot, r, v);
    ApprovedStay(t, t');
    CandidatesStay(t, t');
    FactsStay(t, t');
  }

  lemma RecordApprovalKeepsTexts(t: Tables, scope: Scope, slot: Slot, decision: nat)
    requires VersionsOk(t) && RequestsOk(t) && DecisionsOk(t) && slot in t.versions
    ensures var t' := RecordApproval(t, scope, slot, decision); VersionsOk(t') && RequestsOk(t') && DecisionsOk(t')
  {
    var t' := RecordApproval(t, scope, slot, decision);
    assert forall x | x in t.drafts :: DraftOk(t, x);
    SameVersions(t, t');
    DecisionsStay(t, t');
    assert forall r | r in t.requests :: RequestOk(t, r);
  }

  lemma RecordApprovalKeepsApproved(t: Tables, scope: Scope, slot: Slot, decision: nat)
    requires ApprovedAllOk(t) && CandidatesOk(t) && slot !in t.approved && slot in t.versions
    requires t.versions[slot].scope == scope
    requires decision in t.decisions && t.decisions[decision].slot == slot && t.decisions[decision].verdict.Approve?
    requires t.decisions[decision].approvedSha == Some(t.versions[slot].sha)
    ensures var t' := RecordApproval(t, scope, slot, decision); ApprovedAllOk(t') && CandidatesOk(t')
    ensures t.nextId !in t.candidates
  {
    var t' := RecordApproval(t, scope, slot, decision);
    assert t.nextId in t.candidates ==> CandidateOk(t, t.nextId);
    forall s | s in t'.approved
      ensures ApprovedOk(t', s)
    {
      assert s in t.approved ==> ApprovedOk(t, s);
    }
    forall c | c in t'.candidates
      ensures CandidateOk(t', c)
    {
      assert c in t.candidates ==> CandidateOk(t, c);
    }
  }

  lemma RecordApprovalKeepsCustody(t: Tables, scope: Scope, slot: Slot, decision: nat)
    requires Custody(t) && slot !in t.approved && slot in t.versions && t.versions[slot].scope == scope
    requires decision in t.decisions && t.decisions[decision].slot == slot && t.decisions[decision].verdict.Approve?
    requires t.decisions[decision].approvedSha == Some(t.versions[slot].sha)
    ensures Custody(RecordApproval(t, scope, slot, decision))
  {
    RecordApprovalKeepsTexts(t, scope, slot, decision);
    RecordApprovalKeepsApproved(t, scope, slot, decision);
    FactsStay(t, RecordApproval(t, scope, slot, decision));
  }

  lemma DecideKeepsCustody(t: Tables, scope: Scope, d: nat, slot: Slot, pick: Option<nat>, v: Verdict)
    requires Custody(t) && NewestAwaiting(t, scope, slot, pick)
    ensures Custody(Decide(t, scope, d, slot, pick, v).tables)
  {
    var o := Decide(t, scope, d, slot, pick, v);
    if o.answer.DecisionRecorded? {
      RecordDecisionKeepsCustody(t, scope, slot, pick.value, v);
      if v.Approve? {
        assert RequestOk(t, pick.value);
        RecordApprovalKeepsCustody(RecordDecision(t, d, slot, pick.value, v), scope, slot, t.nextId);
      }
    }
  }

  // ----- memory

  lemma LinkKeepsMemory(t: Tables, c: nat, f: FactKey, actor: string, value: string)
    requires CandidatesOk(t) && FactsOk(t)
    requires c in t.candidates && t.candidates[c].fact.None? && t.candidates[c].scope == f.scope && f !in t.facts
    requires 1 <= f.number && (f.number > 1 ==> FactKey(f.scope, f.key, f.number - 1) in t.facts)
    ensures var t' := LinkFact(t, c, f, actor, value); CandidatesOk(t') && FactsOk(t')
  {
    var t' := LinkFact(t, c, f, actor, value);
    forall x | x in t'.candidates
      ensures CandidateOk(t', x)
    {
      assert CandidateOk(t, x);
    }
    forall x | x in t'.facts
      ensures FactOk(t', x)
    {
      assert x in t.facts ==> FactOk(t, x);
    }
  }

  lemma LinkKeepsTexts(t: Tables, c: nat, f: FactKey, actor: string, value: string)
    requires VersionsOk(t) && RequestsOk(t) && DecisionsOk(t) && ApprovedAllOk(t) && c in t.candidates
    ensures var t' := LinkFact(t, c, f, actor, value);
      VersionsOk(t') && RequestsOk(t') && DecisionsOk(t') && ApprovedAllOk(t')
  {
    var t' := LinkFact(t, c, f, actor, value);
    assert forall x | x in t.drafts :: DraftOk(t, x);
    SameVersions(t, t');
    DecisionsStay(t, t');
    ApprovedStay(t, t');
    assert forall r | r in t.requests :: RequestOk(t, r);
  }

  /** The next number is the largest one plus one, so the numbers of a key stay without gap. */
  lemma PromotionIsNext(t: Tables, scope: Scope, c: nat, actor: string, key: string, value: string, f: FactKey)
    requires PromoteCandidate(t, scope, c, actor, key, value).answer == FactAdded(f)
    ensures c in t.candidates && t.candidates[c].fact.None? && t.candidates[c].scope == f.scope && f !in t.facts
    ensures 1 <= f.number && (f.number > 1 ==> FactKey(f.scope, f.key, f.number - 1) in t.facts)
    ensures PromoteCandidate(t, scope, c, actor, key, value).tables == LinkFact(t, c, f, actor, Text.Strip(value))
  {
    assert f.number > 1 ==> f.number - 1 in NumbersOf(t, scope, f.key);
  }

  lemma LinkKeepsCustody(t: Tables, c: nat, f: FactKey, actor: string, value: string)
    requires Custody(t)
    requires c in t.candidates && t.candidates[c].fact.None? && t.candidates[c].scope == f.scope && f !in t.facts
    requires 1 <= f.number && (f.number > 1 ==> FactKey(f.scope, f.key, f.number - 1) in t.facts)
    ensures Custody(LinkFact(t, c, f, actor, value))
  {
    LinkKeepsMemory(t, c, f, actor, value);
    LinkKeepsTexts(t, c, f, actor, value);
  }

  lemma PromoteKeepsCustody(t: Tables, scope: Scope, c: nat, actor: string, key: string, value: string)
    requires Custody(t)
    ensures Custody(PromoteCandidate(t, scope, c, actor, key, value).tables)
  {
    var answer := PromoteCandidate(t, scope, c, actor, key, value).answer;
    if answer.FactAdded? {
      PromotionIsNext(t, scope, c, actor, key, value, answer.fact);
      LinkKeepsCustody(t, c, answer.fact, actor, Text.Strip(value));
    }
  }

  lemma OpKeepsCustody(t: Tables, ev: Event)
    requires Custody(t)
    ensures Custody(Perform(t, ev).tables)
  {
    match ev
    case DoCreate(scope) => CreateKeepsCustody(t, scope);
    case DoComplete(d, content) => CompleteKeepsCustody(t, d, content);
    case DoAddVersion(scope, d, content) => AddVersionKeepsCustody(t, scope, d, content);
    case DoRequest(scope, d, slot, now) => RequestKeepsCustody(t, scope, d, slot, now);
    case DoDecide(scope, d, slot, pick, v) =>
      if NewestAwaiting(t, scope, slot, pick) {
        DecideKeepsCustody(t, scope, d, slot, pick, v);
      }
    case DoPromote(scope, c, actor, key, value) => PromoteKeepsCustody(t, scope, c, actor, key, value);
  }

  /** Every reachable state keeps the chain of custody. */
  lemma {:induction false} CustodyHolds(events: seq<Event>)
    ensures Custody(Run(events))
  {
    if events != [] {
      CustodyHolds(events[..|events| - 1]);
      OpKeepsCustody(Run(events[..|events| - 1]), events[|events| - 1]);
    }
  }
}
