/** Runs of overlapping approval calls that no order of whole calls gives, and the serial runs among all runs. */
module ApprovalRaceRuns {
  import Text
  import opened Wrappers
  import opened Approval
  import opened ApprovalCustody
  import opened ApprovalRaces
  import opened ApprovalRaceInvariant
  import opened ApprovalRaceSteps
  import opened ApprovalRaceTheorems

  ghost predicate Reachable(s: State) {
    exists actions :: Interleaved(actions) == s
  }

  lemma ReachNext(s: State, a: Action)
    requires Reachable(s)
    ensures Reachable(Apply(s, a))
  {
    var actions :| Interleaved(actions) == s;
    Extend(actions, a);
    assert Interleaved(actions + [a]) == Apply(s, a);
  }

  lemma ReachableInv(s: State)
    requires Reachable(s)
    ensures RaceInv(s)
  {
    var actions :| Interleaved(actions) == s;
    ReachableRace(actions);
  }

  lemma ReachAlone(s: State, p: nat, call: Call, clock: int, pick: Option<nat>)
    requires Reachable(s)
    ensures Reachable(Alone(s, p, call, clock, pick))
  {
    var step := Step(p, clock, pick);
    var s1 := Apply(s, Begin(p, call));
    ReachNext(s, Begin(p, call));
    ReachNext(s1, step);
    ReachNext(Apply(s1, step), step);
    ReachNext(Apply(Apply(s1, step), step), step);
    ReachNext(Apply(Apply(Apply(s1, step), step), step), step);
  }

  // ----- every serial run

  ghost predicate Serially(s: State, t: Tables, n: nat) {
    Reachable(s) && s.t == t && forall p | p in s.calls :: p < n
  }

  function CallOf(ev: Approval.Event): Call
    requires !ev.DoCreate? && !ev.DoComplete?
  {
    match ev
    case DoAddVersion(scope, d, content) => EditRead(scope, d, content)
    case DoRequest(scope, d, slot, _) => AskRead(scope, d, slot)
    case DoDecide(scope, d, slot, _, v) => JudgeRead(scope, d, slot, v)
    case DoPromote(scope, x, actor, key, value) => PromoteRead(scope, x, actor, key, value)
  }

  lemma OneMore(s: State, t: Tables, n: nat, ev: Approval.Event) returns (s': State)
    requires Serially(s, t, n)
    ensures Serially(s', Perform(t, ev).tables, n + 1)
  {
    if ev.DoCreate? {
      ReachNext(s, Create(ev.scope));
      s' := Apply(s, Create(ev.scope));
    } else if ev.DoComplete? {
      ReachNext(s, Complete(ev.draft, ev.content));
      s' := Apply(s, Complete(ev.draft, ev.content));
      assert s'.t == Perform(t, ev).tables by {
        if ev.draft in t.drafts && Slot(ev.draft, 1) !in t.versions {
          assert InvalidateThese(t.requests, {}) == t.requests;
        }
      }
    } else if ev.DoDecide? && !NewestAwaiting(t, ev.scope, ev.slot, ev.pick) {
      s' := s;
    } else {
      var clock := if ev.DoRequest? then ev.now else 0;
      var pick := if ev.DoDecide? then ev.pick else None;
      s' := Alone(s, n, CallOf(ev), clock, pick);
      ReachAlone(s, n, CallOf(ev), clock, pick);
      AloneIsSerial(s, n, CallOf(ev), clock, pick);
      assert Serial(CallOf(ev), clock, pick) == ev;
    }
  }

  /** The tables of every run of whole calls are those of some run of interleaved ones. */
  lemma {:induction false} SerialRunsAreRuns(events: seq<Approval.Event>)
    ensures exists s :: Serially(s, Approval.Run(events), |events|)
  {
    if events == [] {
      assert Interleaved([]) == Idle();
      assert Serially(Idle(), Approval.Run(events), 0);
    } else {
      var n := |events| - 1;
      SerialRunsAreRuns(events[..n]);
      var s :| Serially(s, Approval.Run(events[..n]), n);
      var s' := OneMore(s, Approval.Run(events[..n]), n, events[n]);
      assert Serially(s', Approval.Run(events), |events|);
    }
  }

  // ----- an edit between the reads of a request and its commit

  ghost predicate CanAsk(s: State, scope: Scope, d: nat, slot: Slot) {
    DraftIn(s.t, scope, d) && VersionIn(s.t, scope, d, slot) && slot.number == s.t.drafts[d].currentVersion
  }

  /** The call has read what it needs and commits next. */
  lemma AskReads(s: State, p: nat, scope: Scope, d: nat, slot: Slot) returns (s': State, readAt: nat)
    requires Reachable(s) && p !in s.calls && CanAsk(s, scope, d, slot)
    ensures Reachable(s') && At(s', s.t, s.calls, p, AskCommit(scope, d, slot, s.t.versions[slot].sha, readAt))
  {
    var step := Step(p, 0, None);
    var c := AskRead(scope, d, slot);
    var s1 := Apply(s, Begin(p, c));
    var s2 := Apply(s1, step);
    s', readAt := Apply(s2, step), s1.now;
    ReachNext(s, Begin(p, c));
    ReachNext(s1, step);
    ReachNext(s2, step);
    BeginAt(s, p, c);
    var c' := AskVersion(scope, d, slot, slot.number, readAt);
    StepsTo(s1, Goto(s1, p, c'), s.t, s.calls, p, c, c', 0, None);
    var c'' := AskCommit(scope, d, slot, s.t.versions[slot].sha, readAt);
    StepsTo(s2, Goto(s2, p, c''), s.t, s.calls, p, c', c'', 0, None);
  }

  lemma EditGoesThrough(s: State, q: nat, scope: Scope, d: nat, content: string) returns (s': State)
    requires Reachable(s) && q !in s.calls && DraftIn(s.t, scope, d) && !Text.Blank(content)
    ensures var n := s.t.drafts[d].currentVersion + 1;
      var t' := InsertVersion(s.t, d, n, content).(requests := Invalidate(s.t.requests, scope.tenant, d));
      Reachable(s') && s'.t == t' && s'.calls == s.calls[q := Ended(VersionAdded(Slot(d, n)))]
  {
    s' := Alone(s, q, EditRead(scope, d, content), 0, None);
    ReachAlone(s, q, EditRead(scope, d, content), 0, None);
    EditAlone(s, q, scope, d, content, 0, None);
    NextSlotIsFree(s, d);
  }

  lemma NextSlotIsFree(s: State, d: nat)
    requires Reachable(s) && d in s.t.drafts
    ensures Slot(d, s.t.drafts[d].currentVersion + 1) !in s.t.versions
  {
    ReachableInv(s);
    Parts(s);
    var next := Slot(d, s.t.drafts[d].currentVersion + 1);
    assert next in s.t.versions ==> VersionOk(s.t, next);
  }

  /** A request committed after the draft went on is the only one that awaits on its version. */
  predicate Overtaken(t: Tables, scope: Scope, d: nat, slot: Slot, r: nat) {
    && DraftIn(t, scope, d) && VersionIn(t, scope, d, slot) && slot.number != t.drafts[d].currentVersion
    && AwaitingFor(t, scope, slot, r) && (forall x | x in t.requests && AwaitingFor(t, scope, slot, x) :: x == r)
  }

  lemma AskCommits(s: State, others: map<nat, Call>, p: nat, scope: Scope, d: nat, slot: Slot, sha: Hash, readAt: nat)
    requires At(s, s.t, others, p, AskCommit(scope, d, slot, sha, readAt))
    requires DraftIn(s.t, scope, d) && VersionIn(s.t, scope, d, slot) && slot.number != s.t.drafts[d].currentVersion
    requires forall x | x in s.t.requests :: !AwaitingFor(s.t, scope, slot, x)
    ensures var s' := Apply(s, Step(p, 0, None));
      Overtaken(s'.t, scope, d, slot, s.t.nextId) && s'.calls == others[p := Ended(ApprovalRequested(s.t.nextId))]
  {
    var c := AskCommit(scope, d, slot, sha, readAt);
    var s' := End(WithRequest(s, d, Request(scope, slot, sha, Awaiting, 0), readAt), p, ApprovalRequested(s.t.nextId));
    StepsTo(s, s', s.t, others, p, c, Ended(ApprovalRequested(s.t.nextId)), 0, None);
    forall x | x in s'.t.requests && AwaitingFor(s'.t, scope, slot, x)
      ensures x == s.t.nextId
    {
      assert x in s.t.requests ==> !AwaitingFor(s.t, scope, slot, x);
    }
  }

  /** The decision is refused, and the request is left awaiting on its old version. */
  ghost predicate LeftAwaiting(s: State, j: nat, r: nat) {
    && Reachable(s) && j in s.calls && s.calls[j] == Ended(ApprovalInvalidated)
    && r in s.t.requests && s.t.requests[r].status.Awaiting?
  }

  lemma RequestIsOvertaken(s: State, p: nat, q: nat, scope: Scope, d: nat, slot: Slot, content: string)
    returns (s': State, r: nat)
    requires Reachable(s) && p !in s.calls && q !in s.calls && p != q
    requires CanAsk(s, scope, d, slot) && !Text.Blank(content)
    ensures Reachable(s') && Overtaken(s'.t, scope, d, slot, r) && s'.calls.Keys == s.calls.Keys + {p, q}
  {
    var sha := s.t.versions[slot].sha;
    var read, readAt := AskReads(s, p, scope, d, slot);
    var edited := EditGoesThrough(read, q, scope, d, content);
    NothingAwaitsOn(s.t, scope, d, slot, edited.t);
    r := edited.t.nextId;
    s' := Apply(edited, Step(p, 0, None));
    ReachNext(edited, Step(p, 0, None));
    assert At(edited, edited.t, edited.calls, p, AskCommit(scope, d, slot, sha, readAt));
    AskCommits(edited, edited.calls, p, scope, d, slot, sha, readAt);
  }

  /** From every reachable state: a request for the current version, an edit that commits before the request does,
      and a decision about the request. The decision answers "invalidated". */
  lemma StaleBranchIsReached(s: State, p: nat, q: nat, j: nat, scope: Scope, d: nat, slot: Slot, content: string,
                             v: Verdict)
    returns (s': State, r: nat)
    requires Reachable(s) && p !in s.calls && q !in s.calls && j !in s.calls && p != q && q != j && p != j
    requires CanAsk(s, scope, d, slot) && !Text.Blank(content)
    ensures LeftAwaiting(s', j, r) && s'.t.requests[r].slot == slot
  {
    var asked;
    asked, r := RequestIsOvertaken(s, p, q, scope, d, slot, content);
    s' := Alone(asked, j, JudgeRead(scope, d, slot, v), 0, Some(r));
    ReachAlone(asked, j, JudgeRead(scope, d, slot, v), 0, Some(r));
    OvertakenIsRefused(asked, j, scope, d, slot, r, v);
  }

  lemma OvertakenIsRefused(s: State, j: nat, scope: Scope, d: nat, slot: Slot, r: nat, v: Verdict)
    requires Overtaken(s.t, scope, d, slot, r) && j !in s.calls
    ensures var s' := Alone(s, j, JudgeRead(scope, d, slot, v), 0, Some(r));
      s'.t == s.t && s'.calls == s.calls[j := Ended(ApprovalInvalidated)]
  {
    JudgeAlone(s, j, scope, d, slot, v, 0, Some(r));
    var ev := DoDecide(scope, d, slot, Some(r), v);
    assert Serial(JudgeRead(scope, d, slot, v), 0, Some(r)) == ev;
    assert Perform(s.t, ev) == Outcome(s.t, ApprovalInvalidated);
  }

  lemma NothingAwaitsOn(t: Tables, scope: Scope, d: nat, slot: Slot, t': Tables)
    requires VersionIn(t, scope, d, slot) && t'.requests == Invalidate(t.requests, scope.tenant, d)
    ensures forall x | x in t'.requests :: !AwaitingFor(t', scope, slot, x)
  {
  }

  // ----- two deciding calls that overlap

  predicate CanDecide(t: Tables, scope: Scope, d: nat, slot: Slot, r: nat) {
    && DraftIn(t, scope, d) && VersionIn(t, scope, d, slot) && slot.number == t.drafts[d].currentVersion
    && AwaitingFor(t, scope, slot, r) && Sha(t.versions[slot].content) == t.requests[r].sha
  }

  lemma ReachThree(s: State, p: nat, call: Call, pick: Option<nat>)
    requires Reachable(s)
    ensures var step := Step(p, 0, pick);
      Reachable(Apply(Apply(Apply(Apply(s, Begin(p, call)), step), step), step))
  {
    var step := Step(p, 0, pick);
    var s1 := Apply(s, Begin(p, call));
    ReachNext(s, Begin(p, call));
    ReachNext(s1, step);
    ReachNext(Apply(s1, step), step);
    ReachNext(Apply(Apply(s1, step), step), step);
  }

  /** The call has picked the request and commits next. */
  lemma JudgeReads(s: State, p: nat, scope: Scope, d: nat, slot: Slot, r: nat, v: Verdict)
    returns (s': State, pickedAt: nat)
    requires Reachable(s) && p !in s.calls && CanDecide(s.t, scope, d, slot, r) && NewestAwaiting(s.t, scope, slot, Some(r))
    ensures Reachable(s') && At(s', s.t, s.calls, p, JudgeCommit(scope, d, slot, v, r, pickedAt))
  {
    var step := Step(p, 0, Some(r));
    var c := JudgeRead(scope, d, slot, v);
    var s1 := Apply(s, Begin(p, c));
    var s3 := Apply(Apply(s1, step), step);
    BeginAt(s, p, c);
    JudgeReadsTexts(s1, s.t, s.calls, p, scope, d, slot, r, v);
    JudgePicks(s3, s.t, s.calls, p, scope, d, slot, r, v, s1.now);
    ReachThree(s, p, c, Some(r));
    s', pickedAt := Apply(s3, step), s3.now;
  }

  lemma JudgeReadsTexts(s: State, t: Tables, others: map<nat, Call>, p: nat, scope: Scope, d: nat, slot: Slot, r: nat,
                        v: Verdict)
    requires CanDecide(t, scope, d, slot, r) && At(s, t, others, p, JudgeRead(scope, d, slot, v))
    ensures var step := Step(p, 0, Some(r));
      At(Apply(Apply(s, step), step), t, others, p, JudgeRequest(scope, d, slot, v, t.versions[slot], slot.number, s.now))
  {
    var s' := Apply(s, Step(p, 0, Some(r)));
    var c := JudgeVersion(scope, d, slot, v, slot.number, s.now);
    StepsTo(s, Goto(s, p, c), t, others, p, JudgeRead(scope, d, slot, v), c, 0, Some(r));
    var c' := JudgeRequest(scope, d, slot, v, t.versions[slot], slot.number, s.now);
    StepsTo(s', Goto(s', p, c'), t, others, p, c, c', 0, Some(r));
  }

  lemma JudgePicks(s: State, t: Tables, others: map<nat, Call>, p: nat, scope: Scope, d: nat, slot: Slot, r: nat,
                   v: Verdict, readAt: nat)
    requires CanDecide(t, scope, d, slot, r) && NewestAwaiting(t, scope, slot, Some(r))
    requires At(s, t, others, p, JudgeRequest(scope, d, slot, v, t.versions[slot], slot.number, readAt))
    ensures At(Apply(s, Step(p, 0, Some(r))), t, others, p, JudgeCommit(scope, d, slot, v, r, s.now))
  {
    var c := JudgeRequest(scope, d, slot, v, t.versions[slot], slot.number, readAt);
    var c' := JudgeCommit(scope, d, slot, v, r, s.now);
    StepsTo(s, Goto(s, p, c'), t, others, p, c, c', 0, Some(r));
  }

  lemma JudgeCommits(s: State, p: nat, scope: Scope, d: nat, slot: Slot, r: nat, v: Verdict, pickedAt: nat)
    requires p in s.calls && s.calls[p] == JudgeCommit(scope, d, slot, v, r, pickedAt)
    requires d in s.t.drafts && slot in s.t.versions && r in s.t.requests
    ensures var s' := Apply(s, Step(p, 0, None));
      if v.Approve? && slot in s.t.approved then s'.t == s.t && s'.calls == s.calls[p := Ended(IntegrityError)]
      else
        && s'.t == WithDecision(s, d, scope, slot, r, v, pickedAt).t
        && s'.calls == s.calls[p := Ended(DecisionRecorded(s.t.nextId))]
  {
  }

  ghost predicate DecidedTwice(s: State, r: nat, v: Verdict, w: Verdict) {
    exists x, y | x in s.t.decisions && y in s.t.decisions && x != y ::
      && s.t.decisions[x].request == s.t.decisions[y].request == r
      && s.t.decisions[x].verdict == v && s.t.decisions[y].verdict == w
  }

  lemma BothCommit(s: State, p: nat, q: nat, scope: Scope, d: nat, slot: Slot, r: nat, v: Verdict, w: Verdict,
                   pickedAt: nat, pickedToo: nat)
    requires p in s.calls && q in s.calls && p != q && CanDecide(s.t, scope, d, slot, r) && slot !in s.t.approved
    requires s.calls[p] == JudgeCommit(scope, d, slot, v, r, pickedAt)
    requires s.calls[q] == JudgeCommit(scope, d, slot, w, r, pickedToo)
    ensures var s' := Apply(Apply(s, Step(p, 0, None)), Step(q, 0, None));
      && q in s'.calls
      && if v.Approve? && w.Approve? then s'.calls[q] == Ended(IntegrityError) else DecidedTwice(s', r, v, w)
  {
    var s1 := Apply(s, Step(p, 0, None));
    var s2 := Apply(s1, Step(q, 0, None));
    JudgeCommits(s, p, scope, d, slot, r, v, pickedAt);
    JudgeCommits(s1, q, scope, d, slot, r, w, pickedToo);
    if v.Reject? || w.Reject? {
      var x, y := s.t.nextId, s1.t.nextId;
      assert x in s2.t.decisions && y in s2.t.decisions && x != y;
    }
  }

  /** From every reachable state in which a request can be decided: of two deciding calls that both read it before
      either commits, the second decides it again, unless both approve, when it dies on the unique key. */
  lemma TwoDecisionsAreReached(s: State, p: nat, q: nat, scope: Scope, d: nat, slot: Slot, r: nat, v: Verdict, w: Verdict)
    returns (s': State)
    requires Reachable(s) && p !in s.calls && q !in s.calls && p != q && slot !in s.t.approved
    requires CanDecide(s.t, scope, d, slot, r) && NewestAwaiting(s.t, scope, slot, Some(r))
    ensures Reachable(s') && q in s'.calls
    ensures if v.Approve? && w.Approve? then s'.calls[q] == Ended(IntegrityError) else DecidedTwice(s', r, v, w)
  {
    var s1, pickedAt := JudgeReads(s, p, scope, d, slot, r, v);
    var s2, pickedToo := JudgeReads(s1, q, scope, d, slot, r, w);
    BothCommit(s2, p, q, scope, d, slot, r, v, w, pickedAt, pickedToo);
    ReachNext(s2, Step(p, 0, None));
    s' := Apply(Apply(s2, Step(p, 0, None)), Step(q, 0, None));
    ReachNext(Apply(s2, Step(p, 0, None)), Step(q, 0, None));
  }
}
