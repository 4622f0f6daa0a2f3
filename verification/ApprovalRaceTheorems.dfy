/** What the approval workflow promises when its calls overlap, and what it does not. */
module ApprovalRaceTheorems {
  import Text
  import opened Wrappers
  import opened Approval
  import opened ApprovalCustody
  import opened ApprovalRaces
  import opened ApprovalRaceInvariant
  import opened ApprovalRaceSteps

  lemma {:induction false} Extend(actions: seq<Action>, last: Action)
    ensures Interleaved(actions + [last]) == Apply(Interleaved(actions), last)
  {
    assert (actions + [last])[..|actions|] == actions;
  }

  // ----- custody

  /** Every fact comes from a promoted candidate of an approved version, whose text is that of its draft version
      and carries the hash that was requested and decided. */
  lemma {:induction false} FactCustody(actions: seq<Action>, f: FactKey)
    requires f in Interleaved(actions).t.facts
    ensures var t := Interleaved(actions).t;
      var x := t.facts[f];
      && x.candidate in t.candidates
      && var k := t.candidates[x.candidate];
      && k.fact.Some? && k.source == x.source && k.scope == f.scope
      && x.source in t.approved && x.source in t.versions
      && var a := t.approved[x.source];
      && a.scope == f.scope
      && a.content == t.versions[x.source].content && a.sha == Sha(a.content) && k.sha == a.sha
      && a.decision in t.decisions
      && var d := t.decisions[a.decision];
      && d.verdict.Approve? && d.approvedSha == Some(a.sha) && d.slot == x.source
      && d.request in t.requests
      && !t.requests[d.request].status.Awaiting? && t.requests[d.request].sha == a.sha
  {
    var s := Interleaved(actions);
    ReachableRace(actions);
    Parts(s);
    assert FactLinked(s.t, f);
    var source := s.t.facts[f].source;
    assert CandidateOk(s.t, s.t.facts[f].candidate);
    assert ApprovedOk(s.t, source) && VersionOk(s.t, source);
    assert DecisionLinked(s.t, s.t.approved[source].decision);
  }

  lemma {:induction false} EarlierFacts(t: Tables, f: FactKey, n: nat)
    requires FactsLinked(t) && f in t.facts && 1 <= n <= f.number
    ensures FactKey(f.scope, f.key, n) in t.facts
    decreases f.number
  {
    assert FactLinked(t, f);
    if n < f.number {
      EarlierFacts(t, FactKey(f.scope, f.key, f.number - 1), n);
    }
  }

  lemma {:induction false} FactsAreNumbered(actions: seq<Action>, scope: Scope, key: string, n: nat)
    ensures var t := Interleaved(actions).t;
      FactKey(scope, key, n) in t.facts <==> 1 <= n <= MaxOf(NumbersOf(t, scope, key))
  {
    var s := Interleaved(actions);
    ReachableRace(actions);
    Parts(s);
    var m := MaxOf(NumbersOf(s.t, scope, key));
    if FactKey(scope, key, n) in s.t.facts {
      assert n in NumbersOf(s.t, scope, key);
      assert FactLinked(s.t, FactKey(scope, key, n));
    }
    if 1 <= n <= m {
      EarlierFacts(s.t, FactKey(scope, key, m), n);
    }
  }

  // ----- nothing written, approved or remembered is rewritten

  predicate Kept(t: Tables, t': Tables) {
    && (forall slot | slot in t.versions :: slot in t'.versions && t'.versions[slot] == t.versions[slot])
    && (forall slot | slot in t.approved :: slot in t'.approved && t'.approved[slot] == t.approved[slot])
    && (forall f | f in t.facts :: f in t'.facts && t'.facts[f] == t.facts[f])
    && (forall x | x in t.decisions :: x in t'.decisions && t'.decisions[x] == t.decisions[x])
  }

  lemma EditKeepsRows(s: State, p: nat, c: Call)
    requires c.EditRead? || c.EditLook? || c.EditCommit?
    ensures Kept(s.t, EditStep(s, p, c).t)
  {
  }

  lemma AskKeepsRows(s: State, p: nat, c: Call, clock: int)
    requires c.AskRead? || c.AskVersion? || c.AskCommit?
    ensures Kept(s.t, AskStep(s, p, c, clock).t)
  {
  }

  lemma JudgeKeepsRows(s: State, p: nat, c: Call, pick: Option<nat>)
    requires s.t.nextId !in s.t.decisions
    requires c.JudgeRead? || c.JudgeVersion? || c.JudgeRequest? || c.JudgeCommit?
    ensures Kept(s.t, JudgeStep(s, p, c, pick).t)
  {
  }

  lemma PromoteKeepsRows(s: State, p: nat, c: Call)
    requires c.PromoteRead? || c.PromoteMax? || c.PromoteCommit?
    ensures Kept(s.t, PromoteStep(s, p, c).t)
  {
  }

  lemma AdvanceKeepsRows(s: State, p: nat, c: Call, clock: int, pick: Option<nat>)
    requires s.t.nextId !in s.t.decisions
    ensures Kept(s.t, Advance(s, p, c, clock, pick).t)
  {
    if c.EditRead? || c.EditLook? || c.EditCommit? {
      EditKeepsRows(s, p, c);
    } else if c.AskRead? || c.AskVersion? || c.AskCommit? {
      AskKeepsRows(s, p, c, clock);
    } else if c.PromoteRead? || c.PromoteMax? || c.PromoteCommit? {
      PromoteKeepsRows(s, p, c);
    } else if !c.Ended? {
      JudgeKeepsRows(s, p, c, pick);
    }
  }

  /** The next identifier is free. */
  lemma NextIsFree(s: State)
    requires RaceInv(s)
    ensures s.t.nextId !in s.t.decisions
  {
    Parts(s);
    assert s.t.nextId in s.t.decisions ==> DecisionLinked(s.t, s.t.nextId);
  }

  lemma ActionKeepsRows(s: State, a: Action)
    requires RaceInv(s)
    ensures Kept(s.t, Apply(s, a).t)
  {
    NextIsFree(s);
    if a.Step? && a.p in s.calls {
      AdvanceKeepsRows(s, a.p, s.calls[a.p], a.clock, a.pick);
    }
  }

  /** Versions, approved versions, decisions and facts are never changed or removed. */
  lemma {:induction false} RowsStay(actions: seq<Action>, more: seq<Action>)
    ensures Kept(Interleaved(actions).t, Interleaved(actions + more).t)
    decreases |more|
  {
    if more == [] {
      assert actions + more == actions;
    } else {
      var init, last := more[..|more| - 1], more[|more| - 1];
      RowsStay(actions, init);
      assert actions + more == actions + init + [last];
      Extend(actions + init, last);
      ReachableRace(actions + init);
      ActionKeepsRows(Interleaved(actions + init), last);
    }
  }

  // ----- requests on versions that are no longer current

  /** A version of the draft committed from one tick on and before another. */
  predicate CommittedIn(s: State, later: Slot, d: nat, from: nat, to: nat) {
    later in s.t.versions && later.draft == d && later in s.h.versionAt && from <= s.h.versionAt[later] < to
  }

  /** An awaiting request is on an old version exactly if a version was committed after its call had read the
      draft; and the call of every such version had looked for awaiting requests before this one was there. */
  lemma {:induction false} StaleRequest(actions: seq<Action>, r: nat)
    requires var s := Interleaved(actions); r in s.t.requests && s.t.requests[r].status.Awaiting?
    ensures var s := Interleaved(actions);
      var slot := s.t.requests[r].slot;
      && slot.draft in s.t.drafts && r in s.h.askedAt && r in s.h.madeAt
      && (slot.number != s.t.drafts[slot.draft].currentVersion <==>
          exists later :: CommittedIn(s, later, slot.draft, s.h.askedAt[r], s.now))
      && (forall later | CommittedIn(s, later, slot.draft, s.h.askedAt[r], s.now) ::
            later in s.h.lookedAt && s.h.lookedAt[later] < s.h.madeAt[r])
  {
    var s := Interleaved(actions);
    var slot := s.t.requests[r].slot;
    ReachableRace(actions);
    Parts(s);
    assert RequestLinked(s.t, r) && RequestTimed(s, r) && VersionOk(s.t, slot) && DraftOk(s.t, slot.draft);
    var current := Slot(slot.draft, s.t.drafts[slot.draft].currentVersion);
    assert current in s.t.versions && VersionTimed(s, current);
    assert slot.number != current.number ==> CommittedIn(s, current, slot.draft, s.h.askedAt[r], s.now);
    forall later | CommittedIn(s, later, slot.draft, s.h.askedAt[r], s.now)
      ensures slot.number < later.number <= current.number
      ensures later in s.h.lookedAt && s.h.lookedAt[later] < s.h.madeAt[r]
    {
      assert VersionOk(s.t, later) && VersionTimed(s, later);
    }
  }

  ghost predicate ReadsRequest(s: State, p: nat, r: nat) {
    p in s.calls && s.calls[p].JudgeRequest? && NewestAwaiting(s.t, s.calls[p].scope, s.calls[p].slot, Some(r))
  }

  /** What a deciding call knows when it reads the request: the version is what the request is for. */
  lemma JudgeKnows(s: State, p: nat, r: nat)
    requires RaceInv(s) && ReadsRequest(s, p, r)
    ensures var c := s.calls[p];
      && Snapshot(s, c.draft, c.seen, c.readAt) && c.draft in s.t.drafts
      && c.seen <= s.t.drafts[c.draft].currentVersion
      && c.slot in s.t.versions && c.slot.draft == c.draft && r in s.h.askedAt
      && Snapshot(s, c.draft, c.slot.number, s.h.askedAt[r])
      && Sha(c.version.content) == s.t.requests[r].sha
  {
    Parts(s);
    assert CallOk(s, s.calls[p]) && RequestLinked(s.t, r) && RequestTimed(s, r) && VersionOk(s.t, s.calls[p].slot);
  }

  lemma SeenDiffers(s: State, d: nat, slot: Slot, seen: nat, readAt: nat, askedAt: nat)
    requires RaceInv(s) && d in s.t.drafts && slot in s.t.versions && slot.draft == d
    requires seen <= s.t.drafts[d].currentVersion
    requires Snapshot(s, d, seen, readAt) && Snapshot(s, d, slot.number, askedAt)
    ensures slot in s.h.versionAt
    ensures slot.number < seen <==> exists later :: CommittedIn(s, later, d, askedAt, readAt)
    ensures seen < slot.number <==> readAt <= s.h.versionAt[slot]
  {
    Parts(s);
    assert VersionOk(s.t, slot) && DraftOk(s.t, d);
    if slot.number < seen {
      assert Slot(d, seen) in s.t.versions && VersionTimed(s, Slot(d, seen));
      assert CommittedIn(s, Slot(d, seen), d, askedAt, readAt);
    }
  }

  /** A decision that finds an awaiting request answers "invalidated", and writes nothing, exactly if a version of
      the draft was committed after the request's call had read the draft and before the deciding call read it, or
      the version to decide was committed after the deciding call read the draft. */
  lemma {:induction false} StaleBranch(actions: seq<Action>, p: nat, clock: int, r: nat)
    requires ReadsRequest(Interleaved(actions), p, r)
    ensures var s := Interleaved(actions);
      var c := s.calls[p];
      var s' := Interleaved(actions + [Step(p, clock, Some(r))]);
      && r in s.h.askedAt && c.slot in s.h.versionAt && s'.t == s.t && p in s'.calls
      && (s'.calls[p] == Ended(ApprovalInvalidated) <==>
          || (exists later :: CommittedIn(s, later, c.draft, s.h.askedAt[r], c.readAt))
          || c.readAt <= s.h.versionAt[c.slot])
  {
    var s := Interleaved(actions);
    var c := s.calls[p];
    ReachableRace(actions);
    JudgeKnows(s, p, r);
    SeenDiffers(s, c.draft, c.slot, c.seen, c.readAt, s.h.askedAt[r]);
    Extend(actions, Step(p, clock, Some(r)));
  }

  // ----- decisions

  /** Of two decisions of one request, each call had read it awaiting before the other's commit. */
  lemma {:induction false} TwoDecisionsOverlap(actions: seq<Action>, x: nat, y: nat)
    requires var t := Interleaved(actions).t;
      x in t.decisions && y in t.decisions && t.decisions[x].request == t.decisions[y].request
    ensures var h := Interleaved(actions).h;
      && x in h.pickedAt && y in h.pickedAt && x in h.decidedAt && y in h.decidedAt
      && h.pickedAt[x] < h.decidedAt[y] && h.pickedAt[y] < h.decidedAt[x]
  {
    ReachableRace(actions);
    Parts(Interleaved(actions));
    assert DecisionTimed(Interleaved(actions), x) && DecisionTimed(Interleaved(actions), y);
  }

  ghost predicate ApprovalsRecorded(t: Tables) {
    forall x | x in t.decisions && t.decisions[x].verdict.Approve? ::
      t.decisions[x].slot in t.approved && t.approved[t.decisions[x].slot].decision == x
  }

  lemma AdvanceRecords(s: State, p: nat, c: Call, clock: int, pick: Option<nat>)
    requires ApprovalsRecorded(s.t) && s.t.nextId !in s.t.decisions
    ensures ApprovalsRecorded(Advance(s, p, c, clock, pick).t)
  {
    var t' := Advance(s, p, c, clock, pick).t;
    forall x | x in t'.decisions && t'.decisions[x].verdict.Approve?
      ensures t'.decisions[x].slot in t'.approved && t'.approved[t'.decisions[x].slot].decision == x
    {
      if x in s.t.decisions {
        AdvanceKeepsRows(s, p, c, clock, pick);
      }
    }
  }

  lemma ActionRecords(s: State, a: Action)
    requires ApprovalsRecorded(s.t) && s.t.nextId !in s.t.decisions
    ensures ApprovalsRecorded(Apply(s, a).t)
  {
    if a.Step? && a.p in s.calls {
      AdvanceRecords(s, a.p, s.calls[a.p], a.clock, a.pick);
    } else {
      assert Apply(s, a).t.decisions == s.t.decisions && Apply(s, a).t.approved == s.t.approved;
    }
  }

  /** Every approving decision is that of the approved version of its slot, so a version is approved once. */
  lemma {:induction false} ApprovedOnce(actions: seq<Action>)
    ensures ApprovalsRecorded(Interleaved(actions).t)
  {
    if actions != [] {
      var init, last := actions[..|actions| - 1], actions[|actions| - 1];
      var s := Interleaved(init);
      ApprovedOnce(init);
      ReachableRace(init);
      NextIsFree(s);
      ActionRecords(s, last);
    }
  }

  // ----- a call that nothing overlaps

  function Serial(call: Call, clock: int, pick: Option<nat>): Approval.Event
    requires call.Starts()
  {
    match call
    case EditRead(scope, d, content) => DoAddVersion(scope, d, content)
    case AskRead(scope, d, slot) => DoRequest(scope, d, slot, clock)
    case JudgeRead(scope, d, slot, v) => DoDecide(scope, d, slot, pick, v)
    case PromoteRead(scope, x, actor, key, value) => DoPromote(scope, x, actor, key, value)
  }

  ghost function Alone(s: State, p: nat, call: Call, clock: int, pick: Option<nat>): State {
    var step := Step(p, clock, pick);
    Apply(Apply(Apply(Apply(Apply(s, Begin(p, call)), step), step), step), step)
  }

  ghost predicate IsSerial(s: State, p: nat, call: Call, clock: int, pick: Option<nat>)
    requires call.Starts()
  {
    var o := Perform(s.t, Serial(call, clock, pick));
    Alone(s, p, call, clock, pick).t == o.tables && Alone(s, p, call, clock, pick).calls == s.calls[p := Ended(o.answer)]
  }

  /** A call stands at a statement, over given tables and other calls. */
  predicate At(s: State, t: Tables, others: map<nat, Call>, p: nat, c: Call) {
    s.t == t && s.calls == others[p := c]
  }

  lemma BeginAt(s: State, p: nat, c: Call)
    requires p !in s.calls && c.Starts()
    ensures At(Apply(s, Begin(p, c)), s.t, s.calls, p, c)
  {
  }

  /** The call's statement leads to `s'`, with the call at its next one. */
  lemma StepsTo(s: State, s': State, t: Tables, others: map<nat, Call>, p: nat, c: Call, c': Call, clock: int,
                pick: Option<nat>)
    requires At(s, t, others, p, c) && Advance(s, p, c, clock, pick) == s' && s'.calls == s.calls[p := c']
    ensures At(Apply(s, Step(p, clock, pick)), s'.t, others, p, c')
  {
  }

  lemma EndedAt(s: State, t: Tables, others: map<nat, Call>, p: nat, a: Answer, clock: int, pick: Option<nat>)
    requires At(s, t, others, p, Ended(a))
    ensures At(Apply(s, Step(p, clock, pick)), t, others, p, Ended(a))
  {
  }

  lemma EditCommitAlone(s: State, t: Tables, others: map<nat, Call>, p: nat, scope: Scope, d: nat, content: string,
                        lookedAt: nat, clock: int, pick: Option<nat>)
    requires DraftIn(t, scope, d) && !Text.Blank(content)
    requires var stale := AwaitingOf(t, scope.tenant, d);
      At(s, t, others, p, EditCommit(scope, d, content, t.drafts[d].currentVersion, stale, lookedAt))
    ensures var o := AddVersion(t, scope, d, content);
      At(Apply(s, Step(p, clock, pick)), o.tables, others, p, Ended(o.answer))
  {
    var n := t.drafts[d].currentVersion + 1;
    var stale := AwaitingOf(t, scope.tenant, d);
    assert InvalidateThese(t.requests, stale) == Invalidate(t.requests, scope.tenant, d);
    var c := EditCommit(scope, d, content, n - 1, stale, lookedAt);
    if Slot(d, n) in t.versions {
      StepsTo(s, End(s, p, IntegrityError), t, others, p, c, Ended(IntegrityError), clock, pick);
    } else {
      var s' := End(WithVersion(s, d, n, content, stale, lookedAt), p, VersionAdded(Slot(d, n)));
      StepsTo(s, s', t, others, p, c, Ended(VersionAdded(Slot(d, n))), clock, pick);
    }
  }

  lemma EditAlone(s: State, p: nat, scope: Scope, d: nat, content: string, clock: int, pick: Option<nat>)
    requires p !in s.calls
    ensures IsSerial(s, p, EditRead(scope, d, content), clock, pick)
  {
    var step := Step(p, clock, pick);
    var s1 := Apply(s, Begin(p, EditRead(scope, d, content)));
    var s2 := Apply(s1, step);
    var s3 := Apply(s2, step);
    var s4 := Apply(s3, step);
    var o := AddVersion(s.t, scope, d, content);
    BeginAt(s, p, EditRead(scope, d, content));
    if !DraftIn(s.t, scope, d) || Text.Blank(content) {
      assert At(s2, s.t, s.calls, p, Ended(o.answer));
      EndedAt(s2, s.t, s.calls, p, o.answer, clock, pick);
      EndedAt(s3, s.t, s.calls, p, o.answer, clock, pick);
    } else {
      var seen := s.t.drafts[d].currentVersion;
      assert At(s2, s.t, s.calls, p, EditLook(scope, d, content, seen));
      assert At(s3, s.t, s.calls, p, EditCommit(scope, d, content, seen, AwaitingOf(s.t, scope.tenant, d), s2.now));
      EditCommitAlone(s3, s.t, s.calls, p, scope, d, content, s2.now, clock, pick);
    }
    EndedAt(s4, o.tables, s.calls, p, o.answer, clock, pick);
  }

  lemma AskAlone(s: State, p: nat, scope: Scope, d: nat, slot: Slot, clock: int, pick: Option<nat>)
    requires p !in s.calls
    ensures IsSerial(s, p, AskRead(scope, d, slot), clock, pick)
  {
    var step := Step(p, clock, pick);
    var s1 := Apply(s, Begin(p, AskRead(scope, d, slot)));
    var s2 := Apply(s1, step);
    var s3 := Apply(s2, step);
    var s4 := Apply(s3, step);
    var o := RequestApproval(s.t, scope, d, slot, clock);
    BeginAt(s, p, AskRead(scope, d, slot));
    if !DraftIn(s.t, scope, d) {
      assert At(s2, s.t, s.calls, p, Ended(o.answer));
      EndedAt(s2, s.t, s.calls, p, o.answer, clock, pick);
      EndedAt(s3, s.t, s.calls, p, o.answer, clock, pick);
    } else {
      var seen := s.t.drafts[d].currentVersion;
      assert At(s2, s.t, s.calls, p, AskVersion(scope, d, slot, seen, s1.now));
      if !VersionIn(s.t, scope, d, slot) || slot.number != seen {
        assert At(s3, s.t, s.calls, p, Ended(o.answer));
        EndedAt(s3, s.t, s.calls, p, o.answer, clock, pick);
      } else {
        assert At(s3, s.t, s.calls, p, AskCommit(scope, d, slot, s.t.versions[slot].sha, s1.now));
        assert At(s4, o.tables, s.calls, p, Ended(o.answer));
      }
    }
    EndedAt(s4, o.tables, s.calls, p, o.answer, clock, pick);
  }

  lemma JudgeAlone(s: State, p: nat, scope: Scope, d: nat, slot: Slot, v: Verdict, clock: int, pick: Option<nat>)
    requires p !in s.calls && NewestAwaiting(s.t, scope, slot, pick)
    ensures IsSerial(s, p, JudgeRead(scope, d, slot, v), clock, pick)
  {
    var step := Step(p, clock, pick);
    var s1 := Apply(s, Begin(p, JudgeRead(scope, d, slot, v)));
    var s2 := Apply(s1, step);
    var s3 := Apply(s2, step);
    var o := Decide(s.t, scope, d, slot, pick, v);
    BeginAt(s, p, JudgeRead(scope, d, slot, v));
    if !DraftIn(s.t, scope, d) {
      assert At(s2, s.t, s.calls, p, Ended(o.answer));
      EndedAt(s2, s.t, s.calls, p, o.answer, clock, pick);
      EndedAt(s3, s.t, s.calls, p, o.answer, clock, pick);
      EndedAt(Apply(s3, step), s.t, s.calls, p, o.answer, clock, pick);
    } else {
      var seen := s.t.drafts[d].currentVersion;
      assert At(s2, s.t, s.calls, p, JudgeVersion(scope, d, slot, v, seen, s1.now));
      if !VersionIn(s.t, scope, d, slot) {
        assert At(s3, s.t, s.calls, p, Ended(o.answer));
        EndedAt(s3, s.t, s.calls, p, o.answer, clock, pick);
        EndedAt(Apply(s3, step), s.t, s.calls, p, o.answer, clock, pick);
      } else {
        assert At(s3, s.t, s.calls, p, JudgeRequest(scope, d, slot, v, s.t.versions[slot], seen, s1.now));
        DecideAlone(s3, s.t, s.calls, p, scope, d, slot, v, seen, s1.now, clock, pick);
      }
    }
  }

  lemma DecideCommitAlone(s: State, t: Tables, others: map<nat, Call>, p: nat, scope: Scope, d: nat, slot: Slot,
                          v: Verdict, pickedAt: nat, clock: int, pick: Option<nat>)
    requires DraftIn(t, scope, d) && VersionIn(t, scope, d, slot) && slot.number == t.drafts[d].currentVersion
    requires pick.Some? && pick.value in t.requests && Sha(t.versions[slot].content) == t.requests[pick.value].sha
    requires At(s, t, others, p, JudgeCommit(scope, d, slot, v, pick.value, pickedAt))
    ensures var o := Decide(t, scope, d, slot, pick, v);
      At(Apply(s, Step(p, clock, pick)), o.tables, others, p, Ended(o.answer))
  {
    var c := JudgeCommit(scope, d, slot, v, pick.value, pickedAt);
    if v.Approve? && slot in t.approved {
      StepsTo(s, End(s, p, IntegrityError), t, others, p, c, Ended(IntegrityError), clock, pick);
    } else {
      var s' := End(WithDecision(s, d, scope, slot, pick.value, v, pickedAt), p, DecisionRecorded(t.nextId));
      StepsTo(s, s', t, others, p, c, Ended(DecisionRecorded(t.nextId)), clock, pick);
    }
  }

  /** The last two statements of decide. */
  lemma DecideAlone(s: State, t: Tables, others: map<nat, Call>, p: nat, scope: Scope, d: nat, slot: Slot, v: Verdict,
                    seen: nat, readAt: nat, clock: int, pick: Option<nat>)
    requires DraftIn(t, scope, d) && VersionIn(t, scope, d, slot) && seen == t.drafts[d].currentVersion
    requires At(s, t, others, p, JudgeRequest(scope, d, slot, v, t.versions[slot], seen, readAt))
    requires NewestAwaiting(t, scope, slot, pick)
    ensures var step := Step(p, clock, pick);
      var o := Decide(t, scope, d, slot, pick, v);
      At(Apply(Apply(s, step), step), o.tables, others, p, Ended(o.answer))
  {
    var step := Step(p, clock, pick);
    var s' := Apply(s, step);
    var o := Decide(t, scope, d, slot, pick, v);
    if pick.None? || slot.number != seen || Sha(t.versions[slot].content) != t.requests[pick.value].sha {
      assert At(s', t, others, p, Ended(o.answer));
      EndedAt(s', t, others, p, o.answer, clock, pick);
    } else {
      assert At(s', t, others, p, JudgeCommit(scope, d, slot, v, pick.value, s.now));
      DecideCommitAlone(s', t, others, p, scope, d, slot, v, s.now, clock, pick);
    }
  }

  lemma PromoteCommitAlone(s: State, t: Tables, others: map<nat, Call>, p: nat, scope: Scope, x: nat, actor: string,
                           key: string, value: string, clock: int, pick: Option<nat>)
    requires x in t.candidates && t.candidates[x].scope == scope && t.candidates[x].fact.None?
    requires !Text.Blank(key) && !Text.Blank(value)
    requires var k := Text.Strip(key);
      At(s, t, others, p, PromoteCommit(scope, x, actor, k, Text.Strip(value), MaxOf(NumbersOf(t, scope, k)) + 1))
    ensures var o := PromoteCandidate(t, scope, x, actor, key, value);
      At(Apply(s, Step(p, clock, pick)), o.tables, others, p, Ended(o.answer))
  {
    var k := Text.Strip(key);
    var n := MaxOf(NumbersOf(t, scope, k)) + 1;
    var f := FactKey(scope, k, n);
    var c := PromoteCommit(scope, x, actor, k, Text.Strip(value), n);
    if f in t.facts {
      StepsTo(s, End(s, p, IntegrityError), t, others, p, c, Ended(IntegrityError), clock, pick);
    } else {
      var s' := End(s.(t := LinkFact(t, x, f, actor, Text.Strip(value))), p, FactAdded(f));
      StepsTo(s, s', t, others, p, c, Ended(FactAdded(f)), clock, pick);
    }
  }

  /** The last two statements of approve_memory_candidate. */
  lemma PromoteMaxAlone(s: State, t: Tables, others: map<nat, Call>, p: nat, scope: Scope, x: nat, actor: string,
                        key: string, value: string, clock: int, pick: Option<nat>)
    requires x in t.candidates && t.candidates[x].scope == scope && t.candidates[x].fact.None?
    requires !Text.Blank(key) && !Text.Blank(value)
    requires At(s, t, others, p, PromoteMax(scope, x, actor, Text.Strip(key), Text.Strip(value)))
    ensures var o := PromoteCandidate(t, scope, x, actor, key, value);
      At(Apply(Apply(s, Step(p, clock, pick)), Step(p, clock, pick)), o.tables, others, p, Ended(o.answer))
  {
    var k := Text.Strip(key);
    var c := PromoteMax(scope, x, actor, k, Text.Strip(value));
    var c' := PromoteCommit(scope, x, actor, k, Text.Strip(value), MaxOf(NumbersOf(t, scope, k)) + 1);
    StepsTo(s, Goto(s, p, c'), t, others, p, c, c', clock, pick);
    PromoteCommitAlone(Apply(s, Step(p, clock, pick)), t, others, p, scope, x, actor, key, value, clock, pick);
  }

  lemma PromoteAlone(s: State, p: nat, scope: Scope, x: nat, actor: string, key: string, value: string, clock: int,
                     pick: Option<nat>)
    requires p !in s.calls
    ensures IsSerial(s, p, PromoteRead(scope, x, actor, key, value), clock, pick)
  {
    var step := Step(p, clock, pick);
    var s1 := Apply(s, Begin(p, PromoteRead(scope, x, actor, key, value)));
    var s2 := Apply(s1, step);
    var s3 := Apply(s2, step);
    var s4 := Apply(s3, step);
    var o := PromoteCandidate(s.t, scope, x, actor, key, value);
    BeginAt(s, p, PromoteRead(scope, x, actor, key, value));
    if x !in s.t.candidates || s.t.candidates[x].scope != scope || s.t.candidates[x].fact.Some?
       || Text.Blank(key) || Text.Blank(value) {
      assert At(s2, s.t, s.calls, p, Ended(o.answer));
      EndedAt(s2, s.t, s.calls, p, o.answer, clock, pick);
      EndedAt(s3, s.t, s.calls, p, o.answer, clock, pick);
    } else {
      var k := Text.Strip(key);
      assert At(s2, s.t, s.calls, p, PromoteMax(scope, x, actor, k, Text.Strip(value)));
      PromoteMaxAlone(s2, s.t, s.calls, p, scope, x, actor, key, value, clock, pick);
    }
    EndedAt(s4, o.tables, s.calls, p, o.answer, clock, pick);
  }

  /** A call whose statements run with none of another call between them does what the call does as one
      transaction. */
  lemma AloneIsSerial(s: State, p: nat, call: Call, clock: int, pick: Option<nat>)
    requires p !in s.calls && call.Starts()
    requires call.JudgeRead? ==> NewestAwaiting(s.t, call.scope, call.slot, pick)
    ensures IsSerial(s, p, call, clock, pick)
  {
    match call
    case EditRead(scope, d, content) => EditAlone(s, p, scope, d, content, clock, pick);
    case AskRead(scope, d, slot) => AskAlone(s, p, scope, d, slot, clock, pick);
    case JudgeRead(scope, d, slot, v) => JudgeAlone(s, p, scope, d, slot, v, clock, pick);
    case PromoteRead(scope, x, actor, key, value) => PromoteAlone(s, p, scope, x, actor, key, value, clock, pick);
  }
}
