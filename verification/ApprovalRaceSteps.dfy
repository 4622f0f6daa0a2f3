/** Every action of the interleaved approval calls keeps their invariant. */
module ApprovalRaceSteps {
  import Text
  import opened Wrappers
  import opened Approval
  import opened ApprovalCustody
  import opened ApprovalRaces
  import opened ApprovalRaceInvariant

  function Tick(s: State): State {
    s.(now := s.now + 1)
  }

  /** A call ends where the rows are as they should be. */
  lemma Finish(s: State, p: nat, a: Answer)
    requires RaceInv(s)
    ensures RaceInv(End(s, p, a))
  {
    var s' := End(s, p, a);
    Parts(s);
    OtherTables(s, s');
    forall q | q in s'.calls
      ensures CallOk(s', s'.calls[q])
    {
      if q != p {
        SameKnowledge(s, s', s.calls[q]);
      }
    }
    Whole(s');
  }

  lemma SameKnowledge(s: State, s': State, c: Call)
    requires CallOk(s, c) && s'.t == s.t && s'.h == s.h && s'.now == s.now
    ensures CallOk(s', c)
  {
  }

  lemma Stutter(s: State)
    requires RaceInv(s)
    ensures RaceInv(Tick(s))
  {
    Parts(s);
    QuietGrows(s, Tick(s));
    QuietTimes(s, Tick(s));
    FewerCalls(s, Tick(s));
  }

  lemma SameSnapshot(s: State, s': State, d: nat, seen: nat, at: nat)
    requires Snapshot(s, d, seen, at) && s'.t == s.t && s'.h == s.h
    ensures Snapshot(s', d, seen, at)
  {
  }

  /** The draft just read, with its current version, is known from this tick on. */
  lemma ReadNow(s: State, s': State, scope: Scope, d: nat)
    requires RaceInv(s) && DraftIn(s.t, scope, d)
    requires s'.t == s.t && s'.h == s.h && s'.now == s.now + 1
    ensures HasRead(s', scope, d, s.t.drafts[d].currentVersion, s.now)
  {
    Parts(s);
    CurrentIsSnapshot(s, d);
    SameSnapshot(s, s', d, s.t.drafts[d].currentVersion, s.now);
  }

  lemma ReadStill(s: State, s': State, scope: Scope, d: nat, seen: nat, at: nat)
    requires HasRead(s, scope, d, seen, at) && s'.t == s.t && s'.h == s.h && s'.now == s.now + 1
    ensures HasRead(s', scope, d, seen, at)
  {
    SameSnapshot(s, s', d, seen, at);
  }

  // ----- add_version

  /** The query by tenant and draft finds every awaiting request of the draft. */
  lemma LookFindsAll(s: State, s': State, scope: Scope, d: nat)
    requires RaceInv(s) && DraftIn(s.t, scope, d) && s'.t == s.t
    ensures Looked(s', d, AwaitingOf(s.t, scope.tenant, d), s.now)
  {
    Parts(s);
    forall r | r in s.t.requests && s.t.requests[r].slot.draft == d && s.t.requests[r].status.Awaiting?
      ensures r in AwaitingOf(s.t, scope.tenant, d)
    {
      assert RequestLinked(s.t, r) && VersionOk(s.t, s.t.requests[r].slot);
    }
  }

  /** An edit whose number is free has seen the current version. */
  lemma FreeNumberIsNext(s: State, d: nat, seen: nat)
    requires RaceInv(s) && d in s.t.drafts
    requires seen <= s.t.drafts[d].currentVersion && Slot(d, seen + 1) !in s.t.versions
    ensures seen == s.t.drafts[d].currentVersion
  {
    Parts(s);
    assert DraftOk(s.t, d);
  }

  lemma VersionEnds(s: State, p: nat, d: nat, n: nat, content: string, stale: set<nat>, lookedAt: nat)
    requires RaceInv(s) && NextVersion(s, d, n, stale, lookedAt)
    ensures RaceInv(Tick(End(WithVersion(s, d, n, content, stale, lookedAt), p, VersionAdded(Slot(d, n)))))
  {
    VersionKeepsInv(s, d, n, content, stale, lookedAt);
    Finish(VersionState(s, d, n, content, stale, lookedAt), p, VersionAdded(Slot(d, n)));
  }

  lemma EditCommitKeeps(s: State, p: nat, c: Call)
    requires RaceInv(s) && c.EditCommit? && CallOk(s, c)
    ensures RaceInv(Tick(EditStep(s, p, c)))
  {
    var n := c.seen + 1;
    if Slot(c.draft, n) in s.t.versions {
      QuietStep(s, p, Ended(IntegrityError));
    } else {
      FreeNumberIsNext(s, c.draft, c.seen);
      VersionEnds(s, p, c.draft, n, c.content, c.stale, c.lookedAt);
    }
  }

  lemma EditKeeps(s: State, p: nat, c: Call)
    requires RaceInv(s) && CallOk(s, c) && (c.EditRead? || c.EditLook? || c.EditCommit?)
    ensures RaceInv(Tick(EditStep(s, p, c)))
  {
    match c
    case EditRead(scope, d, content) =>
      if !DraftIn(s.t, scope, d) {
        QuietStep(s, p, Ended(NotFound));
      } else if Text.Blank(content) {
        QuietStep(s, p, Ended(ContentRequired));
      } else {
        QuietStep(s, p, EditLook(scope, d, content, s.t.drafts[d].currentVersion));
      }
    case EditLook(scope, d, content, seen) =>
      var next := EditCommit(scope, d, content, seen, AwaitingOf(s.t, scope.tenant, d), s.now);
      LookFindsAll(s, Tick(Goto(s, p, next)), scope, d);
      QuietStep(s, p, next);
    case EditCommit(_, _, _, _, _, _) => EditCommitKeeps(s, p, c);
  }

  // ----- request_approval

  lemma RequestEnds(s: State, p: nat, d: nat, r: Request, readAt: nat)
    requires RaceInv(s) && NewRequest(s, d, r, readAt)
    ensures RaceInv(Tick(End(WithRequest(s, d, r, readAt), p, ApprovalRequested(s.t.nextId))))
  {
    RequestKeepsInv(s, d, r, readAt);
    Finish(RequestState(s, d, r, readAt), p, ApprovalRequested(s.t.nextId));
  }

  lemma AskCommitKeeps(s: State, p: nat, c: Call, clock: int)
    requires RaceInv(s) && c.AskCommit? && CallOk(s, c)
    ensures RaceInv(Tick(AskStep(s, p, c, clock)))
  {
    var r := Request(c.scope, c.slot, c.sha, Awaiting, clock);
    RequestEnds(s, p, c.draft, r, c.readAt);
  }

  lemma AskKeeps(s: State, p: nat, c: Call, clock: int)
    requires RaceInv(s) && CallOk(s, c) && (c.AskRead? || c.AskVersion? || c.AskCommit?)
    ensures RaceInv(Tick(AskStep(s, p, c, clock)))
  {
    match c
    case AskRead(scope, d, slot) =>
      if !DraftIn(s.t, scope, d) {
        QuietStep(s, p, Ended(NotFound));
      } else {
        var next := AskVersion(scope, d, slot, s.t.drafts[d].currentVersion, s.now);
        ReadNow(s, Tick(Goto(s, p, next)), scope, d);
        QuietStep(s, p, next);
      }
    case AskVersion(scope, d, slot, seen, readAt) =>
      if !VersionIn(s.t, scope, d, slot) {
        QuietStep(s, p, Ended(NotFound));
      } else if slot.number != seen {
        QuietStep(s, p, Ended(RequiresCurrentVersion));
      } else {
        var next := AskCommit(scope, d, slot, s.t.versions[slot].sha, readAt);
        ReadStill(s, Tick(Goto(s, p, next)), scope, d, seen, readAt);
        QuietStep(s, p, next);
      }
    case AskCommit(_, _, _, _, _) => AskCommitKeeps(s, p, c, clock);
  }

  // ----- decide

  /** A request that awaits has no decision. */
  lemma AwaitingIsPicked(s: State, s': State, r: nat)
    requires RaceInv(s) && r in s.t.requests && s.t.requests[r].status.Awaiting? && s'.t == s.t
    ensures Picked(s', r, s.now)
  {
    Parts(s);
    forall x | x in s.t.decisions
      ensures s.t.decisions[x].request != r
    {
      assert DecisionLinked(s.t, x);
    }
  }

  lemma JudgeRequestKeeps(s: State, p: nat, c: Call, pick: Option<nat>)
    requires RaceInv(s) && c.JudgeRequest? && CallOk(s, c)
    ensures RaceInv(Tick(JudgeStep(s, p, c, pick)))
  {
    if !NewestAwaiting(s.t, c.scope, c.slot, pick) {
      Stutter(s);
    } else if pick.None? {
      QuietStep(s, p, Ended(NotFound));
    } else if c.slot.number != c.seen || Sha(c.version.content) != s.t.requests[pick.value].sha {
      QuietStep(s, p, Ended(ApprovalInvalidated));
    } else {
      var next := JudgeCommit(c.scope, c.draft, c.slot, c.verdict, pick.value, s.now);
      AwaitingIsPicked(s, Tick(Goto(s, p, next)), pick.value);
      QuietStep(s, p, next);
    }
  }

  lemma DecisionEnds(s: State, p: nat, d: nat, scope: Scope, slot: Slot, r: nat, v: Verdict, pickedAt: nat)
    requires RaceInv(s) && NewDecision(s, d, scope, slot, r, v, pickedAt)
    ensures RaceInv(Tick(End(WithDecision(s, d, scope, slot, r, v, pickedAt), p, DecisionRecorded(s.t.nextId))))
  {
    DecisionKeepsInv(s, d, scope, slot, r, v, pickedAt);
    Finish(DecisionState(s, d, scope, slot, r, v, pickedAt), p, DecisionRecorded(s.t.nextId));
  }

  lemma JudgeCommitKeeps(s: State, p: nat, c: Call, pick: Option<nat>)
    requires RaceInv(s) && c.JudgeCommit? && CallOk(s, c)
    ensures RaceInv(Tick(JudgeStep(s, p, c, pick)))
  {
    if c.verdict.Approve? && c.slot in s.t.approved {
      QuietStep(s, p, Ended(IntegrityError));
    } else {
      DecisionEnds(s, p, c.draft, c.scope, c.slot, c.request, c.verdict, c.pickedAt);
    }
  }

  lemma JudgeKeeps(s: State, p: nat, c: Call, pick: Option<nat>)
    requires RaceInv(s) && CallOk(s, c) && (c.JudgeRead? || c.JudgeVersion? || c.JudgeRequest? || c.JudgeCommit?)
    ensures RaceInv(Tick(JudgeStep(s, p, c, pick)))
  {
    match c
    case JudgeRead(scope, d, slot, v) =>
      if !DraftIn(s.t, scope, d) {
        QuietStep(s, p, Ended(NotFound));
      } else {
        var next := JudgeVersion(scope, d, slot, v, s.t.drafts[d].currentVersion, s.now);
        ReadNow(s, Tick(Goto(s, p, next)), scope, d);
        QuietStep(s, p, next);
      }
    case JudgeVersion(scope, d, slot, v, seen, readAt) =>
      if !VersionIn(s.t, scope, d, slot) {
        QuietStep(s, p, Ended(NotFound));
      } else {
        var next := JudgeRequest(scope, d, slot, v, s.t.versions[slot], seen, readAt);
        ReadStill(s, Tick(Goto(s, p, next)), scope, d, seen, readAt);
        QuietStep(s, p, next);
      }
    case JudgeRequest(_, _, _, _, _, _, _) => JudgeRequestKeeps(s, p, c, pick);
    case JudgeCommit(_, _, _, _, _, _) => JudgeCommitKeeps(s, p, c, pick);
  }

  // ----- approve_memory_candidate

  lemma FactEnds(s: State, p: nat, c: nat, f: FactKey, actor: string, value: string)
    requires RaceInv(s) && NewFact(s, c, f)
    ensures RaceInv(Tick(End(s.(t := LinkFact(s.t, c, f, actor, value)), p, FactAdded(f))))
  {
    FactKeepsInv(s, c, f, actor, value);
    Finish(FactState(s, c, f, actor, value), p, FactAdded(f));
  }

  lemma PromoteCommitKeeps(s: State, p: nat, c: Call)
    requires RaceInv(s) && c.PromoteCommit? && CallOk(s, c)
    ensures RaceInv(Tick(PromoteStep(s, p, c)))
  {
    var f := FactKey(c.scope, c.key, c.number);
    if f in s.t.facts {
      QuietStep(s, p, Ended(IntegrityError));
    } else {
      FactEnds(s, p, c.candidate, f, c.actor, c.value);
    }
  }

  lemma PromoteKeeps(s: State, p: nat, c: Call)
    requires RaceInv(s) && CallOk(s, c) && (c.PromoteRead? || c.PromoteMax? || c.PromoteCommit?)
    ensures RaceInv(Tick(PromoteStep(s, p, c)))
  {
    match c
    case PromoteRead(scope, x, actor, key, value) =>
      if x !in s.t.candidates || s.t.candidates[x].scope != scope || s.t.candidates[x].fact.Some? {
        QuietStep(s, p, Ended(NotFound));
      } else if Text.Blank(key) || Text.Blank(value) {
        QuietStep(s, p, Ended(KeyAndValueRequired));
      } else {
        QuietStep(s, p, PromoteMax(scope, x, actor, Text.Strip(key), Text.Strip(value)));
      }
    case PromoteMax(scope, x, actor, key, value) =>
      var m := MaxOf(NumbersOf(s.t, scope, key));
      assert m > 0 ==> FactKey(scope, key, m) in s.t.facts;
      QuietStep(s, p, PromoteCommit(scope, x, actor, key, value, m + 1));
    case PromoteCommit(_, _, _, _, _, _) => PromoteCommitKeeps(s, p, c);
  }

  // ----- drafts and the end of calls

  lemma CreateKeeps(s: State, scope: Scope)
    requires RaceInv(s)
    ensures RaceInv(Apply(s, Create(scope)))
  {
    var s' := Apply(s, Create(scope));
    Parts(s);
    CreateKeepsLinks(s.t, scope);
    CreateTimes(s, s', scope);
    CreateGrows(s, s', scope);
    FewerCalls(s, s');
  }

  lemma CreateKeepsLinks(t: Tables, scope: Scope)
    requires Linked(t)
    ensures Linked(CreateDraft(t, scope).tables) && t.nextId !in t.drafts
  {
    var t' := CreateDraft(t, scope).tables;
    assert t.nextId in t.drafts ==> DraftOk(t, t.nextId);
    assert forall d | d in t.drafts :: DraftOk(t, d);
    SameVersions(t, t');
    RequestsLinkedStay(t, t');
    DecisionsLinkedStay(t, t');
    MemoryStays(t, t');
  }

  lemma CreateTimes(s: State, s': State, scope: Scope)
    requires RowsOk(s) && s' == Apply(s, Create(scope))
    ensures VersionsTimed(s') && RequestsTimed(s') && DecisionsTimed(s')
  {
    QuietTimes(s, Tick(s));
    OtherTables(Tick(s), s');
  }

  lemma CreateGrows(s: State, s': State, scope: Scope)
    requires RowsOk(s) && s' == Apply(s, Create(scope)) && s.t.nextId !in s.t.drafts
    ensures Grows(s, s')
  {
    SameVersionRows(s, s');
    SameRequestRows(s, s');
    SameDecisionRows(s, s');
    SameMemory(s, s');
  }

  /** A draft without version 1 has no version, so nothing awaits on it. */
  lemma NothingAwaits(s: State, d: nat)
    requires RaceInv(s) && d in s.t.drafts && Slot(d, 1) !in s.t.versions
    ensures s.t.drafts[d].currentVersion == 0 && Looked(s, d, {}, s.now)
  {
    Parts(s);
    assert DraftOk(s.t, d);
    forall r | r in s.t.requests
      ensures s.t.requests[r].slot.draft != d
    {
      assert RequestLinked(s.t, r) && VersionOk(s.t, s.t.requests[r].slot);
    }
  }

  lemma CompleteKeeps(s: State, d: nat, content: string)
    requires RaceInv(s)
    ensures RaceInv(Apply(s, Complete(d, content)))
  {
    if d !in s.t.drafts || Slot(d, 1) in s.t.versions {
      Stutter(s);
    } else {
      NothingAwaits(s, d);
      VersionKeepsInv(s, d, 1, content, {}, s.now);
    }
  }

  lemma DropKeeps(s: State, p: nat)
    requires RaceInv(s)
    ensures RaceInv(Tick(s.(calls := s.calls - {p})))
  {
    var s' := Tick(s.(calls := s.calls - {p}));
    Parts(s);
    QuietGrows(s, s');
    QuietTimes(s, s');
    FewerCalls(s, s');
  }

  lemma AdvanceKeeps(s: State, p: nat, clock: int, pick: Option<nat>)
    requires RaceInv(s) && p in s.calls
    ensures RaceInv(Tick(Advance(s, p, s.calls[p], clock, pick)))
  {
    var c := s.calls[p];
    assert CallOk(s, c) by {
      Parts(s);
    }
    if c.EditRead? || c.EditLook? || c.EditCommit? {
      EditKeeps(s, p, c);
    } else if c.AskRead? || c.AskVersion? || c.AskCommit? {
      AskKeeps(s, p, c, clock);
    } else if c.Ended? {
      Stutter(s);
    } else if c.PromoteRead? || c.PromoteMax? || c.PromoteCommit? {
      PromoteKeeps(s, p, c);
    } else {
      JudgeKeeps(s, p, c, pick);
    }
  }

  lemma ActionKeeps(s: State, a: Action)
    requires RaceInv(s)
    ensures RaceInv(Apply(s, a))
  {
    match a
    case Create(scope) => CreateKeeps(s, scope);
    case Complete(d, content) => CompleteKeeps(s, d, content);
    case Begin(p, call) =>
      if p in s.calls || !call.Starts() {
        Stutter(s);
      } else {
        QuietStep(s, p, call);
      }
    case Step(p, clock, pick) =>
      if p in s.calls {
        AdvanceKeeps(s, p, clock, pick);
      } else {
        Stutter(s);
      }
    case Drop(p) =>
      if p in s.calls && !s.calls[p].Ended? {
        DropKeeps(s, p);
      } else {
        Stutter(s);
      }
  }

  /** The links hold in every state that interleaved calls reach. */
  lemma {:induction false} ReachableRace(actions: seq<Action>)
    ensures RaceInv(Interleaved(actions))
  {
    if actions != [] {
      ReachableRace(actions[..|actions| - 1]);
      ActionKeeps(Interleaved(actions[..|actions| - 1]), actions[|actions| - 1]);
    } else {
      Whole(Idle());
    }
  }
}
