/** The links of the chain of custody that survive every interleaving of the approval calls. */
module ApprovalRaceInvariant {
  import Text
  import opened Wrappers
  import opened Approval
  import opened ApprovalCustody
  import opened ApprovalRaces

  // ----- the tables

  /** A request targets a version with that version's hash. */
  predicate RequestLinked(t: Tables, r: nat)
    requires r in t.requests
  {
    var q := t.requests[r];
    r < t.nextId && q.slot in t.versions && q.scope == t.versions[q.slot].scope && q.sha == t.versions[q.slot].sha
  }

  /** A decision is about the version of its request, carries its hash if it approves, and ends its waiting. */
  predicate DecisionLinked(t: Tables, x: nat)
    requires x in t.decisions
  {
    var d := t.decisions[x];
    && x < t.nextId && d.request in t.requests && !t.requests[d.request].status.Awaiting?
    && t.requests[d.request].slot == d.slot
    && d.approvedSha == if d.verdict.Approve? then Some(t.requests[d.request].sha) else None
  }

  /** A fact has its predecessor, and comes from a promoted candidate of the same source. */
  predicate FactLinked(t: Tables, f: FactKey)
    requires f in t.facts
  {
    var x := t.facts[f];
    && 1 <= f.number && (f.number > 1 ==> FactKey(f.scope, f.key, f.number - 1) in t.facts)
    && x.candidate in t.candidates && t.candidates[x.candidate].fact.Some?
    && t.candidates[x.candidate].source == x.source && t.candidates[x.candidate].scope == f.scope
  }

  predicate RequestsLinked(t: Tables) {
    forall r | r in t.requests :: RequestLinked(t, r)
  }

  predicate DecisionsLinked(t: Tables) {
    forall x | x in t.decisions :: DecisionLinked(t, x)
  }

  predicate FactsLinked(t: Tables) {
    forall f | f in t.facts :: FactLinked(t, f)
  }

  predicate Linked(t: Tables) {
    && VersionsOk(t) && RequestsLinked(t) && DecisionsLinked(t)
    && ApprovedAllOk(t) && CandidatesOk(t) && FactsLinked(t)
  }

  // ----- the ticks

  /** The versions of a draft up to a number are those committed before a tick. */
  predicate Snapshot(s: State, d: nat, seen: nat, at: nat) {
    forall slot | slot in s.t.versions && slot.draft == d ::
      slot in s.h.versionAt && (slot.number <= seen <==> s.h.versionAt[slot] < at)
  }

  predicate VersionTimed(s: State, slot: Slot) {
    && slot in s.h.versionAt && slot in s.h.lookedAt
    && s.h.lookedAt[slot] <= s.h.versionAt[slot] < s.now
  }

  predicate VersionsTimed(s: State) {
    && (forall slot | slot in s.t.versions :: VersionTimed(s, slot))
    && (forall a, b | a in s.t.versions && b in s.t.versions && a.draft == b.draft && a.number < b.number ::
          s.h.versionAt[a] < s.h.versionAt[b])
  }

  /** The request was made on what was current when its call had read the draft; and if it still awaits, every
      later version's call had looked for awaiting requests before this one was committed. */
  predicate RequestTimed(s: State, r: nat)
    requires r in s.t.requests
  {
    var q := s.t.requests[r];
    && r in s.h.askedAt && r in s.h.madeAt && s.h.askedAt[r] < s.h.madeAt[r] < s.now
    && Snapshot(s, q.slot.draft, q.slot.number, s.h.askedAt[r])
    && (q.status.Awaiting? ==> Overlooked(s, q.slot, s.h.madeAt[r]))
  }

  predicate Overlooked(s: State, slot: Slot, made: nat) {
    forall later | later in s.t.versions && later.draft == slot.draft && later.number > slot.number ::
      later in s.h.lookedAt && s.h.lookedAt[later] < made
  }

  predicate RequestsTimed(s: State) {
    forall r | r in s.t.requests :: RequestTimed(s, r)
  }

  predicate DecisionTimed(s: State, x: nat) {
    x in s.h.pickedAt && x in s.h.decidedAt && s.h.pickedAt[x] < s.h.decidedAt[x] < s.now
  }

  /** Of two decisions of one request, each call had read the request before the other's commit. */
  predicate DecisionsTimed(s: State) {
    && (forall x | x in s.t.decisions :: DecisionTimed(s, x))
    && (forall x, y | x in s.t.decisions && y in s.t.decisions && s.t.decisions[x].request == s.t.decisions[y].request ::
          s.h.pickedAt[x] < s.h.decidedAt[y])
  }

  // ----- the calls

  /** A call on a draft of its scope that had read it at a tick, with `seen` as current version. */
  predicate HasRead(s: State, scope: Scope, d: nat, seen: nat, at: nat) {
    DraftIn(s.t, scope, d) && seen <= s.t.drafts[d].currentVersion && at < s.now && Snapshot(s, d, seen, at)
  }

  predicate VersionKnown(s: State, scope: Scope, d: nat, slot: Slot) {
    slot.draft == d && slot in s.t.versions && s.t.versions[slot].scope == scope
  }

  predicate CallOk(s: State, c: Call) {
    match c
    case EditLook(scope, d, _, seen) => DraftIn(s.t, scope, d) && seen <= s.t.drafts[d].currentVersion
    case EditCommit(scope, d, _, seen, stale, lookedAt) =>
      && DraftIn(s.t, scope, d) && seen <= s.t.drafts[d].currentVersion && lookedAt < s.now
      && Looked(s, d, stale, lookedAt)
    case AskVersion(scope, d, _, seen, readAt) => HasRead(s, scope, d, seen, readAt)
    case AskCommit(scope, d, slot, sha, readAt) =>
      && HasRead(s, scope, d, slot.number, readAt) && VersionKnown(s, scope, d, slot)
      && sha == s.t.versions[slot].sha
    case JudgeVersion(scope, d, _, _, seen, readAt) => HasRead(s, scope, d, seen, readAt)
    case JudgeRequest(scope, d, slot, _, version, seen, readAt) =>
      && HasRead(s, scope, d, seen, readAt) && VersionKnown(s, scope, d, slot) && version == s.t.versions[slot]
    case JudgeCommit(scope, d, slot, _, r, pickedAt) =>
      && DraftIn(s.t, scope, d) && VersionKnown(s, scope, d, slot) && pickedAt < s.now
      && r in s.t.requests && s.t.requests[r].slot == slot && Picked(s, r, pickedAt)
    case PromoteMax(scope, x, _, _, _) => x in s.t.candidates && s.t.candidates[x].scope == scope
    case PromoteCommit(scope, x, _, key, _, number) =>
      && x in s.t.candidates && s.t.candidates[x].scope == scope
      && 1 <= number && (number > 1 ==> FactKey(scope, key, number - 1) in s.t.facts)
    case _ => true
  }

  /** Every request that awaits on the draft and was there at the tick is among those found. */
  predicate Looked(s: State, d: nat, stale: set<nat>, at: nat) {
    forall r | r in s.t.requests && s.t.requests[r].slot.draft == d && s.t.requests[r].status.Awaiting? && r !in stale ::
      r in s.h.madeAt && at < s.h.madeAt[r]
  }

  /** The request had no decision at the tick. */
  predicate Picked(s: State, r: nat, at: nat) {
    forall x | x in s.t.decisions && s.t.decisions[x].request == r :: x in s.h.decidedAt && at < s.h.decidedAt[x]
  }

  predicate CallsOk(s: State) {
    forall p | p in s.calls :: CallOk(s, s.calls[p])
  }

  /** The parts of the invariant. */
  datatype Part = Links | VersionTimes | RequestTimes | DecisionTimes | Knowledge

  predicate Holds(s: State, part: Part) {
    match part
    case Links => Linked(s.t)
    case VersionTimes => VersionsTimed(s)
    case RequestTimes => RequestsTimed(s)
    case DecisionTimes => DecisionsTimed(s)
    case Knowledge => CallsOk(s)
  }

  ghost predicate RaceInv(s: State) {
    forall part: Part :: Holds(s, part)
  }

  predicate RowsOk(s: State) {
    Linked(s.t) && VersionsTimed(s) && RequestsTimed(s) && DecisionsTimed(s)
  }

  lemma Parts(s: State)
    requires RaceInv(s)
    ensures RowsOk(s) && CallsOk(s)
  {
    assert Holds(s, Links) && Holds(s, VersionTimes) && Holds(s, RequestTimes) && Holds(s, DecisionTimes);
    assert Holds(s, Knowledge);
  }

  lemma Whole(s: State)
    requires RowsOk(s) && CallsOk(s)
    ensures RaceInv(s)
  {
    forall part: Part
      ensures Holds(s, part)
    {
      match part
      case Links =>
      case VersionTimes =>
      case RequestTimes =>
      case DecisionTimes =>
      case Knowledge =>
    }
  }

  // ----- what every action keeps of the rows

  predicate DraftsGrow(s: State, s': State) {
    forall d | d in s.t.drafts ::
      d in s'.t.drafts && s'.t.drafts[d].scope == s.t.drafts[d].scope
      && s'.t.drafts[d].currentVersion >= s.t.drafts[d].currentVersion
  }

  /** Versions stay, with their ticks; a new one has the tick of this action and is the next of its draft. */
  predicate VersionsGrow(s: State, s': State) {
    && (forall slot | slot in s.t.versions ::
          slot in s'.t.versions && s'.t.versions[slot] == s.t.versions[slot]
          && slot in s.h.versionAt && slot in s'.h.versionAt && s'.h.versionAt[slot] == s.h.versionAt[slot])
    && (forall slot | slot in s'.t.versions && slot !in s.t.versions ::
          slot in s'.h.versionAt && s'.h.versionAt[slot] == s.now
          && slot.draft in s.t.drafts && slot.number == s.t.drafts[slot.draft].currentVersion + 1)
  }

  /** Requests stay, with their ticks, and none starts to await again. */
  predicate RequestsGrow(s: State, s': State) {
    && (forall r | r in s.t.requests ::
          r in s'.t.requests && s'.t.requests[r].slot == s.t.requests[r].slot
          && (s'.t.requests[r].status.Awaiting? ==> s.t.requests[r].status.Awaiting?)
          && r in s.h.madeAt && r in s'.h.madeAt && s'.h.madeAt[r] == s.h.madeAt[r])
    && (forall r | r in s'.t.requests && r !in s.t.requests :: r in s'.h.madeAt && s'.h.madeAt[r] == s.now)
  }

  predicate DecisionsGrow(s: State, s': State) {
    && (forall x | x in s.t.decisions ::
          x in s'.t.decisions && s'.t.decisions[x] == s.t.decisions[x]
          && x in s.h.decidedAt && x in s'.h.decidedAt && s'.h.decidedAt[x] == s.h.decidedAt[x])
    && (forall x | x in s'.t.decisions && x !in s.t.decisions :: x in s'.h.decidedAt && s'.h.decidedAt[x] == s.now)
  }

  predicate MemoryGrows(s: State, s': State) {
    && (forall c | c in s.t.candidates ::
          c in s'.t.candidates && s'.t.candidates[c].scope == s.t.candidates[c].scope
          && s'.t.candidates[c].source == s.t.candidates[c].source)
    && (forall f | f in s.t.facts :: f in s'.t.facts && s'.t.facts[f] == s.t.facts[f])
    && (forall slot | slot in s.t.approved :: slot in s'.t.approved && s'.t.approved[slot] == s.t.approved[slot])
  }

  predicate Grows(s: State, s': State) {
    && s'.now == s.now + 1
    && DraftsGrow(s, s') && VersionsGrow(s, s') && RequestsGrow(s, s') && DecisionsGrow(s, s') && MemoryGrows(s, s')
  }

  // ----- what a call has read stays true

  lemma SnapshotStays(s: State, s': State, d: nat, seen: nat, at: nat)
    requires VersionsGrow(s, s') && Snapshot(s, d, seen, at) && at <= s.now
    requires d in s.t.drafts && seen <= s.t.drafts[d].currentVersion
    ensures Snapshot(s', d, seen, at)
  {
  }

  lemma ReadStays(s: State, s': State, scope: Scope, d: nat, seen: nat, at: nat)
    requires Grows(s, s') && HasRead(s, scope, d, seen, at)
    ensures HasRead(s', scope, d, seen, at)
  {
    SnapshotStays(s, s', d, seen, at);
  }

  lemma LookedStays(s: State, s': State, d: nat, stale: set<nat>, at: nat)
    requires RequestsGrow(s, s') && Looked(s, d, stale, at) && at < s.now
    ensures Looked(s', d, stale, at)
  {
  }

  lemma PickedStays(s: State, s': State, r: nat, at: nat)
    requires DecisionsGrow(s, s') && Picked(s, r, at) && at < s.now
    ensures Picked(s', r, at)
  {
  }

  /** What a call knows holds on, whatever another call commits. */
  lemma CallStays(s: State, s': State, c: Call)
    requires Grows(s, s') && CallOk(s, c)
    ensures CallOk(s', c)
  {
    match c
    case EditCommit(_, d, _, _, stale, lookedAt) => LookedStays(s, s', d, stale, lookedAt);
    case AskVersion(scope, d, _, seen, readAt) => ReadStays(s, s', scope, d, seen, readAt);
    case AskCommit(scope, d, slot, _, readAt) => ReadStays(s, s', scope, d, slot.number, readAt);
    case JudgeVersion(scope, d, _, _, seen, readAt) => ReadStays(s, s', scope, d, seen, readAt);
    case JudgeRequest(scope, d, _, _, _, seen, readAt) => ReadStays(s, s', scope, d, seen, readAt);
    case JudgeCommit(_, _, _, _, r, pickedAt) => PickedStays(s, s', r, pickedAt);
    case _ =>
  }

  lemma CallsStay(s: State, s': State, p: nat, c: Call)
    requires CallsOk(s) && Grows(s, s') && s'.calls == s.calls[p := c] && CallOk(s', c)
    ensures CallsOk(s')
  {
    forall q | q in s'.calls
      ensures CallOk(s', s'.calls[q])
    {
      if q != p {
        CallStays(s, s', s.calls[q]);
      }
    }
  }

  lemma FewerCalls(s: State, s': State)
    requires CallsOk(s) && Grows(s, s') && RowsOk(s')
    requires forall q | q in s'.calls :: q in s.calls && s'.calls[q] == s.calls[q]
    ensures RaceInv(s')
  {
    forall q | q in s'.calls
      ensures CallOk(s', s'.calls[q])
    {
      CallStays(s, s', s.calls[q]);
    }
    Whole(s');
  }

  // ----- tables that an action leaves alone

  lemma SameVersionRows(s: State, s': State)
    requires VersionsTimed(s) && s'.t.versions == s.t.versions && s'.h.versionAt == s.h.versionAt
    ensures VersionsGrow(s, s')
  {
    assert forall slot | slot in s.t.versions :: VersionTimed(s, slot);
  }

  lemma SameRequestRows(s: State, s': State)
    requires RequestsTimed(s) && s'.t.requests == s.t.requests && s'.h.madeAt == s.h.madeAt
    ensures RequestsGrow(s, s')
  {
    assert forall r | r in s.t.requests :: RequestTimed(s, r);
  }

  lemma SameDecisionRows(s: State, s': State)
    requires DecisionsTimed(s) && s'.t.decisions == s.t.decisions && s'.h.decidedAt == s.h.decidedAt
    ensures DecisionsGrow(s, s')
  {
    assert forall x | x in s.t.decisions :: DecisionTimed(s, x);
  }

  lemma SameMemory(s: State, s': State)
    requires s'.t.candidates == s.t.candidates && s'.t.facts == s.t.facts && s'.t.approved == s.t.approved
    ensures MemoryGrows(s, s')
  {
  }

  lemma SameDrafts(s: State, s': State)
    requires s'.t.drafts == s.t.drafts
    ensures DraftsGrow(s, s')
  {
  }

  // ----- actions that commit nothing

  lemma QuietGrows(s: State, s': State)
    requires VersionsTimed(s) && RequestsTimed(s) && DecisionsTimed(s)
    requires s'.t == s.t && s'.h == s.h && s'.now == s.now + 1
    ensures Grows(s, s')
  {
    SameDrafts(s, s');
    SameVersionRows(s, s');
    SameRequestRows(s, s');
    SameDecisionRows(s, s');
    SameMemory(s, s');
  }

  lemma QuietTimes(s: State, s': State)
    requires VersionsTimed(s) && RequestsTimed(s) && DecisionsTimed(s)
    requires s'.t == s.t && s'.h == s.h && s'.now == s.now + 1
    ensures VersionsTimed(s') && RequestsTimed(s') && DecisionsTimed(s')
  {
    forall slot | slot in s'.t.versions
      ensures VersionTimed(s', slot)
    {
      assert VersionTimed(s, slot);
    }
    forall r | r in s'.t.requests
      ensures RequestTimed(s', r)
    {
      assert RequestTimed(s, r);
    }
    forall x | x in s'.t.decisions
      ensures DecisionTimed(s', x)
    {
      assert DecisionTimed(s, x);
    }
  }

  /** A call that only reads keeps everything, if it knows what it now claims. */
  lemma QuietStep(s: State, p: nat, c: Call)
    requires RaceInv(s) && CallOk(Goto(s, p, c).(now := s.now + 1), c)
    ensures RaceInv(Goto(s, p, c).(now := s.now + 1))
  {
    var s' := Goto(s, p, c).(now := s.now + 1);
    Parts(s);
    QuietGrows(s, s');
    QuietTimes(s, s');
    CallsStay(s, s', p, c);
    Whole(s');
  }

  /** At this very tick the current version of a draft is the latest committed. */
  lemma CurrentIsSnapshot(s: State, d: nat)
    requires VersionsOk(s.t) && VersionsTimed(s) && d in s.t.drafts
    ensures Snapshot(s, d, s.t.drafts[d].currentVersion, s.now)
  {
    forall slot | slot in s.t.versions && slot.draft == d
      ensures slot in s.h.versionAt && slot.number <= s.t.drafts[d].currentVersion && s.h.versionAt[slot] < s.now
    {
      assert VersionOk(s.t, slot) && VersionTimed(s, slot);
    }
  }

  // ----- a new version

  predicate NextVersion(s: State, d: nat, n: nat, stale: set<nat>, lookedAt: nat) {
    && d in s.t.drafts && n == s.t.drafts[d].currentVersion + 1 && lookedAt <= s.now && Looked(s, d, stale, lookedAt)
  }

  function VersionState(s: State, d: nat, n: nat, content: string, stale: set<nat>, lookedAt: nat): State
    requires d in s.t.drafts
  {
    WithVersion(s, d, n, content, stale, lookedAt).(now := s.now + 1)
  }

  lemma VersionIsNew(s: State, d: nat, n: nat, content: string, stale: set<nat>, lookedAt: nat)
    requires VersionsOk(s.t) && NextVersion(s, d, n, stale, lookedAt)
    ensures Slot(d, n) !in s.t.versions
    ensures VersionsOk(VersionState(s, d, n, content, stale, lookedAt).t)
  {
    InsertKeepsVersions(s.t, d, content);
    SameVersions(InsertVersion(s.t, d, n, content), VersionState(s, d, n, content, stale, lookedAt).t);
  }

  lemma VersionKeepsLinks(s: State, d: nat, n: nat, content: string, stale: set<nat>, lookedAt: nat)
    requires Linked(s.t) && NextVersion(s, d, n, stale, lookedAt)
    ensures Linked(VersionState(s, d, n, content, stale, lookedAt).t)
  {
    var t' := VersionState(s, d, n, content, stale, lookedAt).t;
    VersionIsNew(s, d, n, content, stale, lookedAt);
    VersionKeepsRequests(s, d, n, content, stale, lookedAt);
    DecisionsLinkedStay(s.t, t');
    MemoryStays(s.t, t');
  }

  lemma MemoryStays(t: Tables, t': Tables)
    requires ApprovedAllOk(t) && CandidatesOk(t) && FactsLinked(t) && t.nextId <= t'.nextId
    requires t'.approved == t.approved && t'.candidates == t.candidates && t'.facts == t.facts
    requires forall slot | slot in t.versions :: slot in t'.versions && t'.versions[slot] == t.versions[slot]
    requires forall x | x in t.decisions :: x in t'.decisions && t'.decisions[x] == t.decisions[x]
    ensures ApprovedAllOk(t') && CandidatesOk(t') && FactsLinked(t')
  {
    ApprovedStay(t, t');
    CandidatesStay(t, t');
    FactsLinkedStay(t, t');
  }

  lemma VersionKeepsRequests(s: State, d: nat, n: nat, content: string, stale: set<nat>, lookedAt: nat)
    requires RequestsLinked(s.t) && d in s.t.drafts && Slot(d, n) !in s.t.versions
    ensures RequestsLinked(VersionState(s, d, n, content, stale, lookedAt).t)
  {
    var t' := VersionState(s, d, n, content, stale, lookedAt).t;
    forall r | r in t'.requests
      ensures RequestLinked(t', r)
    {
      assert RequestLinked(s.t, r);
    }
  }

  lemma RequestsLinkedStay(t: Tables, t': Tables)
    requires RequestsLinked(t) && t'.requests == t.requests && t'.versions == t.versions && t.nextId <= t'.nextId
    ensures RequestsLinked(t')
  {
    forall r | r in t'.requests
      ensures RequestLinked(t', r)
    {
      assert RequestLinked(t, r);
    }
  }

  lemma DecisionsLinkedStay(t: Tables, t': Tables)
    requires DecisionsLinked(t) && t'.decisions == t.decisions && t.nextId <= t'.nextId
    requires forall r | r in t.requests :: r in t'.requests && t'.requests[r].slot == t.requests[r].slot
               && t'.requests[r].sha == t.requests[r].sha
               && (!t.requests[r].status.Awaiting? ==> !t'.requests[r].status.Awaiting?)
    ensures DecisionsLinked(t')
  {
    forall x | x in t'.decisions
      ensures DecisionLinked(t', x)
    {
      assert DecisionLinked(t, x);
    }
  }

  /** Drafts that keep their scope and current version keep the versions. */
  lemma DraftsStay(t: Tables, t': Tables)
    requires VersionsOk(t) && t'.versions == t.versions && t'.drafts.Keys == t.drafts.Keys && t.nextId <= t'.nextId
    requires forall d | d in t.drafts :: t'.drafts[d].scope == t.drafts[d].scope
                                         && t'.drafts[d].currentVersion == t.drafts[d].currentVersion
    ensures VersionsOk(t')
  {
    assert forall d | d in t.drafts :: DraftOk(t, d);
    SameVersions(t, t');
  }

  lemma FactsLinkedStay(t: Tables, t': Tables)
    requires FactsLinked(t) && t'.facts == t.facts
    requires forall c | c in t.candidates :: c in t'.candidates && t'.candidates[c] == t.candidates[c]
    ensures FactsLinked(t')
  {
    forall f | f in t'.facts
      ensures FactLinked(t', f)
    {
      assert FactLinked(t, f);
    }
  }

  lemma VersionGrows(s: State, d: nat, n: nat, content: string, stale: set<nat>, lookedAt: nat)
    requires Linked(s.t) && VersionsTimed(s) && RequestsTimed(s) && DecisionsTimed(s)
    requires NextVersion(s, d, n, stale, lookedAt)
    ensures Grows(s, VersionState(s, d, n, content, stale, lookedAt))
  {
    var s' := VersionState(s, d, n, content, stale, lookedAt);
    VersionGrowsVersions(s, d, n, content, stale, lookedAt);
    VersionGrowsRequests(s, d, n, content, stale, lookedAt);
    SameDecisionRows(s, s');
    SameMemory(s, s');
  }

  lemma VersionGrowsVersions(s: State, d: nat, n: nat, content: string, stale: set<nat>, lookedAt: nat)
    requires VersionsOk(s.t) && VersionsTimed(s) && NextVersion(s, d, n, stale, lookedAt)
    ensures var s' := VersionState(s, d, n, content, stale, lookedAt); DraftsGrow(s, s') && VersionsGrow(s, s')
  {
    VersionIsNew(s, d, n, content, stale, lookedAt);
    assert forall slot | slot in s.t.versions :: VersionTimed(s, slot);
  }

  lemma VersionGrowsRequests(s: State, d: nat, n: nat, content: string, stale: set<nat>, lookedAt: nat)
    requires RequestsTimed(s) && d in s.t.drafts
    ensures RequestsGrow(s, VersionState(s, d, n, content, stale, lookedAt))
  {
    assert forall r | r in s.t.requests :: RequestTimed(s, r);
  }

  lemma VersionKeepsVersionTimes(s: State, d: nat, n: nat, content: string, stale: set<nat>, lookedAt: nat)
    requires VersionsOk(s.t) && VersionsTimed(s) && NextVersion(s, d, n, stale, lookedAt)
    ensures VersionsTimed(VersionState(s, d, n, content, stale, lookedAt))
  {
    var s' := VersionState(s, d, n, content, stale, lookedAt);
    VersionIsNew(s, d, n, content, stale, lookedAt);
    forall slot | slot in s'.t.versions
      ensures VersionTimed(s', slot)
    {
      assert slot != Slot(d, n) ==> VersionTimed(s, slot);
    }
    forall a, b | a in s'.t.versions && b in s'.t.versions && a.draft == b.draft && a.number < b.number
      ensures s'.h.versionAt[a] < s'.h.versionAt[b]
    {
      assert a in s.t.versions ==> VersionTimed(s, a) && VersionOk(s.t, a);
      assert b in s.t.versions ==> VersionTimed(s, b) && VersionOk(s.t, b);
    }
  }

  lemma VersionKeepsRequestTimes(s: State, d: nat, n: nat, content: string, stale: set<nat>, lookedAt: nat)
    requires Linked(s.t) && VersionsTimed(s) && RequestsTimed(s) && DecisionsTimed(s)
    requires NextVersion(s, d, n, stale, lookedAt)
    ensures RequestsTimed(VersionState(s, d, n, content, stale, lookedAt))
  {
    var s' := VersionState(s, d, n, content, stale, lookedAt);
    VersionGrows(s, d, n, content, stale, lookedAt);
    forall r | r in s'.t.requests
      ensures RequestTimed(s', r)
    {
      var q := s.t.requests[r];
      assert RequestTimed(s, r) && RequestLinked(s.t, r) && VersionOk(s.t, q.slot);
      SnapshotStays(s, s', q.slot.draft, q.slot.number, s.h.askedAt[r]);
    }
  }

  lemma SameVersionTimes(s: State, s': State)
    requires VersionsTimed(s) && s'.t.versions == s.t.versions && s'.now == s.now + 1
    requires s'.h.versionAt == s.h.versionAt && s'.h.lookedAt == s.h.lookedAt
    ensures VersionsTimed(s')
  {
    forall slot | slot in s'.t.versions
      ensures VersionTimed(s', slot)
    {
      assert VersionTimed(s, slot);
    }
  }

  lemma SameDecisionTimes(s: State, s': State)
    requires DecisionsTimed(s) && s'.t.decisions == s.t.decisions && s'.now == s.now + 1
    requires s'.h.pickedAt == s.h.pickedAt && s'.h.decidedAt == s.h.decidedAt
    ensures DecisionsTimed(s')
  {
    forall x | x in s'.t.decisions
      ensures DecisionTimed(s', x)
    {
      assert DecisionTimed(s, x);
    }
  }

  lemma VersionKeepsInv(s: State, d: nat, n: nat, content: string, stale: set<nat>, lookedAt: nat)
    requires RaceInv(s) && NextVersion(s, d, n, stale, lookedAt)
    ensures RaceInv(VersionState(s, d, n, content, stale, lookedAt))
  {
    Parts(s);
    VersionKeepsLinks(s, d, n, content, stale, lookedAt);
    VersionGrows(s, d, n, content, stale, lookedAt);
    VersionKeepsVersionTimes(s, d, n, content, stale, lookedAt);
    VersionKeepsRequestTimes(s, d, n, content, stale, lookedAt);
    SameDecisionTimes(s, VersionState(s, d, n, content, stale, lookedAt));
    FewerCalls(s, VersionState(s, d, n, content, stale, lookedAt));
  }

  // ----- a new request

  predicate NewRequest(s: State, d: nat, r: Request, readAt: nat) {
    && DraftIn(s.t, r.scope, d) && VersionKnown(s, r.scope, d, r.slot) && r.sha == s.t.versions[r.slot].sha
    && readAt < s.now && Snapshot(s, d, r.slot.number, readAt) && r.status.Awaiting?
  }

  function RequestState(s: State, d: nat, r: Request, readAt: nat): State
    requires d in s.t.drafts
  {
    WithRequest(s, d, r, readAt).(now := s.now + 1)
  }

  lemma RequestKeepsLinks(s: State, d: nat, r: Request, readAt: nat)
    requires Linked(s.t) && NewRequest(s, d, r, readAt)
    ensures Linked(RequestState(s, d, r, readAt).t)
  {
    var t' := RequestState(s, d, r, readAt).t;
    RequestKeepsRequests(s, d, r, readAt);
    DraftsStay(s.t, t');
    DecisionsLinkedStay(s.t, t');
    MemoryStays(s.t, t');
  }

  lemma RequestKeepsRequests(s: State, d: nat, r: Request, readAt: nat)
    requires RequestsLinked(s.t) && NewRequest(s, d, r, readAt)
    ensures RequestsLinked(RequestState(s, d, r, readAt).t) && s.t.nextId !in s.t.requests
  {
    var t' := RequestState(s, d, r, readAt).t;
    assert s.t.nextId in s.t.requests ==> RequestLinked(s.t, s.t.nextId);
    forall x | x in t'.requests
      ensures RequestLinked(t', x)
    {
      assert x in s.t.requests ==> RequestLinked(s.t, x);
    }
  }

  lemma RequestGrows(s: State, d: nat, r: Request, readAt: nat)
    requires Linked(s.t) && VersionsTimed(s) && RequestsTimed(s) && DecisionsTimed(s) && NewRequest(s, d, r, readAt)
    ensures Grows(s, RequestState(s, d, r, readAt)) && s.t.nextId !in s.t.requests
  {
    var s' := RequestState(s, d, r, readAt);
    RequestGrowsRequests(s, d, r, readAt);
    SameVersionRows(s, s');
    SameDecisionRows(s, s');
    SameMemory(s, s');
  }

  lemma RequestGrowsRequests(s: State, d: nat, r: Request, readAt: nat)
    requires RequestsLinked(s.t) && RequestsTimed(s) && d in s.t.drafts
    ensures s.t.nextId !in s.t.requests
    ensures var s' := RequestState(s, d, r, readAt); DraftsGrow(s, s') && RequestsGrow(s, s')
  {
    assert s.t.nextId in s.t.requests ==> RequestLinked(s.t, s.t.nextId);
    assert forall x | x in s.t.requests :: RequestTimed(s, x);
  }

  lemma RequestKeepsTimes(s: State, d: nat, r: Request, readAt: nat)
    requires Linked(s.t) && VersionsTimed(s) && RequestsTimed(s) && DecisionsTimed(s) && NewRequest(s, d, r, readAt)
    ensures RequestsTimed(RequestState(s, d, r, readAt))
  {
    var s' := RequestState(s, d, r, readAt);
    RequestKeepsRequests(s, d, r, readAt);
    forall x | x in s'.t.requests
      ensures RequestTimed(s', x)
    {
      if x in s.t.requests {
        assert RequestTimed(s, x);
      } else {
        assert forall slot | slot in s.t.versions :: VersionTimed(s, slot);
      }
    }
  }

  lemma RequestKeepsInv(s: State, d: nat, r: Request, readAt: nat)
    requires RaceInv(s) && NewRequest(s, d, r, readAt)
    ensures RaceInv(RequestState(s, d, r, readAt))
  {
    Parts(s);
    RequestKeepsLinks(s, d, r, readAt);
    RequestGrows(s, d, r, readAt);
    SameVersionTimes(s, RequestState(s, d, r, readAt));
    RequestKeepsTimes(s, d, r, readAt);
    SameDecisionTimes(s, RequestState(s, d, r, readAt));
    FewerCalls(s, RequestState(s, d, r, readAt));
  }

  // ----- a new decision

  predicate NewDecision(s: State, d: nat, scope: Scope, slot: Slot, r: nat, v: Verdict, pickedAt: nat) {
    && DraftIn(s.t, scope, d) && VersionKnown(s, scope, d, slot) && pickedAt < s.now
    && r in s.t.requests && s.t.requests[r].slot == slot && Picked(s, r, pickedAt)
    && (v.Approve? ==> slot !in s.t.approved)
  }

  function DecisionState(s: State, d: nat, scope: Scope, slot: Slot, r: nat, v: Verdict, pickedAt: nat): State
    requires d in s.t.drafts && slot in s.t.versions && r in s.t.requests
  {
    WithDecision(s, d, scope, slot, r, v, pickedAt).(now := s.now + 1)
  }

  lemma RecordKeepsRequests(t: Tables, d: nat, slot: Slot, r: nat, v: Verdict)
    requires RequestsLinked(t) && d in t.drafts && slot in t.versions && r in t.requests
    ensures RequestsLinked(RecordDecision(t, d, slot, r, v))
  {
    var t' := RecordDecision(t, d, slot, r, v);
    forall x | x in t'.requests
      ensures RequestLinked(t', x)
    {
      assert RequestLinked(t, x);
    }
  }

  lemma RecordKeepsDecisions(t: Tables, d: nat, slot: Slot, r: nat, v: Verdict)
    requires RequestsLinked(t) && DecisionsLinked(t)
    requires d in t.drafts && slot in t.versions && r in t.requests && t.requests[r].slot == slot
    ensures DecisionsLinked(RecordDecision(t, d, slot, r, v)) && t.nextId !in t.decisions
  {
    var t' := RecordDecision(t, d, slot, r, v);
    assert t.nextId in t.decisions ==> DecisionLinked(t, t.nextId);
    assert RequestLinked(t, r);
    forall x | x in t'.decisions
      ensures DecisionLinked(t', x)
    {
      assert x in t.decisions ==> DecisionLinked(t, x);
    }
  }

  lemma RecordKeepsLinks(t: Tables, d: nat, slot: Slot, r: nat, v: Verdict)
    requires Linked(t) && d in t.drafts && slot in t.versions && r in t.requests && t.requests[r].slot == slot
    ensures Linked(RecordDecision(t, d, slot, r, v)) && t.nextId !in t.decisions
  {
    var t' := RecordDecision(t, d, slot, r, v);
    RecordKeepsRequests(t, d, slot, r, v);
    RecordKeepsDecisions(t, d, slot, r, v);
    DraftsStay(t, t');
    MemoryStays(t, t');
  }

  lemma ApprovalKeepsLinks(t: Tables, scope: Scope, slot: Slot, decision: nat)
    requires Linked(t) && slot !in t.approved && slot in t.versions && t.versions[slot].scope == scope
    requires decision in t.decisions && t.decisions[decision].slot == slot && t.decisions[decision].verdict.Approve?
    requires t.decisions[decision].approvedSha == Some(t.versions[slot].sha)
    ensures Linked(RecordApproval(t, scope, slot, decision)) && t.nextId !in t.candidates
  {
    var t' := RecordApproval(t, scope, slot, decision);
    RecordApprovalKeepsApproved(t, scope, slot, decision);
    DraftsStay(t, t');
    RequestsLinkedStay(t, t');
    DecisionsLinkedStay(t, t');
    FactsLinkedStay(t, t');
  }

  lemma DecisionKeepsLinks(s: State, d: nat, scope: Scope, slot: Slot, r: nat, v: Verdict, pickedAt: nat)
    requires Linked(s.t) && NewDecision(s, d, scope, slot, r, v, pickedAt)
    ensures Linked(DecisionState(s, d, scope, slot, r, v, pickedAt).t)
  {
    RecordKeepsLinks(s.t, d, slot, r, v);
    if v.Approve? {
      assert RequestLinked(s.t, r);
      ApprovalKeepsLinks(RecordDecision(s.t, d, slot, r, v), scope, slot, s.t.nextId);
    }
  }

  lemma DecisionGrows(s: State, d: nat, scope: Scope, slot: Slot, r: nat, v: Verdict, pickedAt: nat)
    requires DecisionsLinked(s.t) && CandidatesOk(s.t) && VersionsTimed(s) && RequestsTimed(s) && DecisionsTimed(s)
    requires NewDecision(s, d, scope, slot, r, v, pickedAt)
    ensures Grows(s, DecisionState(s, d, scope, slot, r, v, pickedAt)) && s.t.nextId !in s.t.decisions
  {
    var s' := DecisionState(s, d, scope, slot, r, v, pickedAt);
    DecisionGrowsDecisions(s, d, scope, slot, r, v, pickedAt);
    DecisionGrowsRequests(s, d, scope, slot, r, v, pickedAt);
    DecisionGrowsMemory(s, d, scope, slot, r, v, pickedAt);
    SameVersionRows(s, s');
  }

  lemma DecisionGrowsDecisions(s: State, d: nat, scope: Scope, slot: Slot, r: nat, v: Verdict, pickedAt: nat)
    requires DecisionsLinked(s.t) && DecisionsTimed(s) && d in s.t.drafts && slot in s.t.versions && r in s.t.requests
    ensures DecisionsGrow(s, DecisionState(s, d, scope, slot, r, v, pickedAt)) && s.t.nextId !in s.t.decisions
  {
    assert s.t.nextId in s.t.decisions ==> DecisionLinked(s.t, s.t.nextId);
    assert forall x | x in s.t.decisions :: DecisionTimed(s, x);
  }

  lemma DecisionGrowsRequests(s: State, d: nat, scope: Scope, slot: Slot, r: nat, v: Verdict, pickedAt: nat)
    requires RequestsTimed(s) && d in s.t.drafts && slot in s.t.versions && r in s.t.requests
    ensures var s' := DecisionState(s, d, scope, slot, r, v, pickedAt); DraftsGrow(s, s') && RequestsGrow(s, s')
  {
    assert forall x | x in s.t.requests :: RequestTimed(s, x);
  }

  lemma DecisionGrowsMemory(s: State, d: nat, scope: Scope, slot: Slot, r: nat, v: Verdict, pickedAt: nat)
    requires CandidatesOk(s.t) && NewDecision(s, d, scope, slot, r, v, pickedAt)
    ensures MemoryGrows(s, DecisionState(s, d, scope, slot, r, v, pickedAt))
  {
    assert forall c | c in s.t.candidates :: CandidateOk(s.t, c);
  }

  lemma DecisionKeepsRequestTimes(s: State, d: nat, scope: Scope, slot: Slot, r: nat, v: Verdict, pickedAt: nat)
    requires VersionsTimed(s) && RequestsTimed(s) && NewDecision(s, d, scope, slot, r, v, pickedAt)
    ensures var s' := DecisionState(s, d, scope, slot, r, v, pickedAt); VersionsTimed(s') && RequestsTimed(s')
  {
    var s' := DecisionState(s, d, scope, slot, r, v, pickedAt);
    forall x | x in s'.t.versions
      ensures VersionTimed(s', x)
    {
      assert VersionTimed(s, x);
    }
    forall x | x in s'.t.requests
      ensures RequestTimed(s', x)
    {
      assert RequestTimed(s, x);
    }
  }

  lemma DecisionKeepsDecisionTimes(s: State, d: nat, scope: Scope, slot: Slot, r: nat, v: Verdict, pickedAt: nat)
    requires DecisionsTimed(s) && NewDecision(s, d, scope, slot, r, v, pickedAt) && s.t.nextId !in s.t.decisions
    ensures DecisionsTimed(DecisionState(s, d, scope, slot, r, v, pickedAt))
  {
    var s' := DecisionState(s, d, scope, slot, r, v, pickedAt);
    forall x | x in s'.t.decisions
      ensures DecisionTimed(s', x)
    {
      assert x in s.t.decisions ==> DecisionTimed(s, x);
    }
    forall x, y | x in s'.t.decisions && y in s'.t.decisions && s'.t.decisions[x].request == s'.t.decisions[y].request
      ensures s'.h.pickedAt[x] < s'.h.decidedAt[y]
    {
      assert x in s.t.decisions ==> DecisionTimed(s, x);
    }
  }

  lemma DecisionKeepsInv(s: State, d: nat, scope: Scope, slot: Slot, r: nat, v: Verdict, pickedAt: nat)
    requires RaceInv(s) && NewDecision(s, d, scope, slot, r, v, pickedAt)
    ensures RaceInv(DecisionState(s, d, scope, slot, r, v, pickedAt))
  {
    Parts(s);
    DecisionKeepsLinks(s, d, scope, slot, r, v, pickedAt);
    DecisionGrows(s, d, scope, slot, r, v, pickedAt);
    DecisionKeepsRequestTimes(s, d, scope, slot, r, v, pickedAt);
    DecisionKeepsDecisionTimes(s, d, scope, slot, r, v, pickedAt);
    FewerCalls(s, DecisionState(s, d, scope, slot, r, v, pickedAt));
  }

  // ----- a new fact

  function FactState(s: State, c: nat, f: FactKey, actor: string, value: string): State
    requires c in s.t.candidates
  {
    s.(t := LinkFact(s.t, c, f, actor, value), now := s.now + 1)
  }

  predicate NewFact(s: State, c: nat, f: FactKey) {
    && c in s.t.candidates && s.t.candidates[c].scope == f.scope && f !in s.t.facts
    && 1 <= f.number && (f.number > 1 ==> FactKey(f.scope, f.key, f.number - 1) in s.t.facts)
  }

  lemma FactKeepsLinks(s: State, c: nat, f: FactKey, actor: string, value: string)
    requires Linked(s.t) && NewFact(s, c, f)
    ensures Linked(FactState(s, c, f, actor, value).t)
  {
    FactKeepsTexts(s.t, c, f, actor, value);
    ApprovedStay(s.t, LinkFact(s.t, c, f, actor, value));
    FactKeepsMemory(s.t, c, f, actor, value);
  }

  lemma FactKeepsTexts(t: Tables, c: nat, f: FactKey, actor: string, value: string)
    requires VersionsOk(t) && RequestsLinked(t) && DecisionsLinked(t) && c in t.candidates
    ensures var t' := LinkFact(t, c, f, actor, value);
      VersionsOk(t') && RequestsLinked(t') && DecisionsLinked(t')
  {
    var t' := LinkFact(t, c, f, actor, value);
    DraftsStay(t, t');
    RequestsLinkedStay(t, t');
    DecisionsLinkedStay(t, t');
  }

  lemma FactKeepsMemory(t: Tables, c: nat, f: FactKey, actor: string, value: string)
    requires CandidatesOk(t) && FactsLinked(t) && c in t.candidates && t.candidates[c].scope == f.scope
    requires f !in t.facts && 1 <= f.number
    requires f.number > 1 ==> FactKey(f.scope, f.key, f.number - 1) in t.facts
    ensures var t' := LinkFact(t, c, f, actor, value); CandidatesOk(t') && FactsLinked(t')
  {
    var t' := LinkFact(t, c, f, actor, value);
    forall x | x in t'.candidates
      ensures CandidateOk(t', x)
    {
      assert CandidateOk(t, x);
    }
    forall x | x in t'.facts
      ensures FactLinked(t', x)
    {
      assert x in t.facts ==> FactLinked(t, x);
    }
  }

  lemma FactKeepsInv(s: State, c: nat, f: FactKey, actor: string, value: string)
    requires RaceInv(s) && NewFact(s, c, f)
    ensures RaceInv(FactState(s, c, f, actor, value))
  {
    Parts(s);
    var s' := FactState(s, c, f, actor, value);
    FactKeepsLinks(s, c, f, actor, value);
    QuietTimes(s, s.(now := s.now + 1));
    OtherTables(s.(now := s.now + 1), s');
    FactGrows(s, c, f, actor, value);
    FewerCalls(s, FactState(s, c, f, actor, value));
  }

  lemma FactGrows(s: State, c: nat, f: FactKey, actor: string, value: string)
    requires VersionsTimed(s) && RequestsTimed(s) && DecisionsTimed(s) && NewFact(s, c, f)
    ensures Grows(s, FactState(s, c, f, actor, value))
  {
    var s' := FactState(s, c, f, actor, value);
    SameDrafts(s, s');
    SameVersionRows(s, s');
    SameRequestRows(s, s');
    SameDecisionRows(s, s');
  }

  /** The ticks say nothing of candidates, facts and drafts. */
  lemma OtherTables(s: State, s': State)
    requires VersionsTimed(s) && RequestsTimed(s) && DecisionsTimed(s) && s'.h == s.h && s'.now == s.now
    requires s'.t.versions == s.t.versions && s'.t.requests == s.t.requests && s'.t.decisions == s.t.decisions
    ensures VersionsTimed(s') && RequestsTimed(s') && DecisionsTimed(s')
  {
    forall slot | slot in s'.t.versions
      ensures VersionTimed(s', slot)
    {
      assert VersionTimed(s, slot);
    }
    forall r | r in s'.t.requests
      ensures RequestTimed(s', r)
    {
      assert RequestTimed(s, r);
    }
    forall x | x in s'.t.decisions
      ensures DecisionTimed(s', x)
    {
      assert DecisionTimed(s, x);
    }
  }
}
