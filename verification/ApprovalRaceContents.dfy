/** Under every interleaving of the approval calls, every row has what its call was given. */
module ApprovalRaceContents {
  import Text
  import opened Wrappers
  import opened Approval
  import opened ApprovalCustody
  import opened ApprovalRaces
  import opened ApprovalRaceInvariant
  import opened ApprovalRaceSteps
  import opened ApprovalRaceTheorems

  /** The call that a process began with. */
  ghost function Begun(actions: seq<Action>, p: nat): Option<Call> {
    if actions == [] then None
    else
      var before, last := actions[..|actions| - 1], actions[|actions| - 1];
      if last.Begin? && last.p == p && last.call.Starts() && p !in Interleaved(before).calls then Some(last.call)
      else Begun(before, p)
  }

  // ----- what a call still has of what it began with

  /** The answer of a call that began like this is true of the rows. */
  predicate IsTrue(t: Tables, begun: Call, a: Answer) {
    match a
    case VersionAdded(slot) =>
      && begun.EditRead? && slot.draft == begun.draft && slot in t.versions && t.versions[slot].content == begun.content
      && !Text.Blank(begun.content)
    case ApprovalRequested(r) =>
      && begun.AskRead? && r in t.requests && t.requests[r].slot == begun.slot && t.requests[r].scope == begun.scope
      && begun.slot.draft == begun.draft
    case DecisionRecorded(x) =>
      && begun.JudgeRead? && x in t.decisions && t.decisions[x].slot == begun.slot
      && t.decisions[x].verdict == begun.verdict && begun.slot.draft == begun.draft
    case FactAdded(f) =>
      && begun.PromoteRead? && f in t.facts && f.scope == begun.scope && f.key == Text.Strip(begun.key)
      && t.facts[f].value == Text.Strip(begun.value) && t.facts[f].approvedBy == begun.actor
      && t.facts[f].candidate == begun.candidate && !Text.Blank(begun.key) && !Text.Blank(begun.value)
    case ContentRequired => begun.EditRead? && Text.Blank(begun.content)
    case KeyAndValueRequired => begun.PromoteRead? && (Text.Blank(begun.key) || Text.Blank(begun.value))
    case RequiresCurrentVersion => begun.AskRead?
    case ApprovalInvalidated => begun.JudgeRead?
    case DraftCreated(_) => false
    case _ => true
  }

  predicate IsOf(t: Tables, begun: Call, c: Call) {
    match c
    case EditLook(scope, d, content, _) => begun == EditRead(scope, d, content) && !Text.Blank(content)
    case EditCommit(scope, d, content, _, _, _) => begun == EditRead(scope, d, content) && !Text.Blank(content)
    case AskVersion(scope, d, slot, _, _) => begun == AskRead(scope, d, slot)
    case AskCommit(scope, d, slot, _, _) => begun == AskRead(scope, d, slot) && slot.draft == d
    case JudgeVersion(scope, d, slot, v, _, _) => begun == JudgeRead(scope, d, slot, v)
    case JudgeRequest(scope, d, slot, v, _, _, _) => begun == JudgeRead(scope, d, slot, v) && slot.draft == d
    case JudgeCommit(scope, d, slot, v, _, _) => begun == JudgeRead(scope, d, slot, v) && slot.draft == d
    case PromoteMax(scope, x, actor, key, value) => IsPromotion(begun, scope, x, actor, key, value)
    case PromoteCommit(scope, x, actor, key, value, _) => IsPromotion(begun, scope, x, actor, key, value)
    case Ended(a) => IsTrue(t, begun, a)
    case _ => c == begun
  }

  predicate IsPromotion(begun: Call, scope: Scope, x: nat, actor: string, key: string, value: string) {
    && begun.PromoteRead? && begun.scope == scope && begun.candidate == x && begun.actor == actor
    && key == Text.Strip(begun.key) && value == Text.Strip(begun.value)
    && !Text.Blank(begun.key) && !Text.Blank(begun.value)
  }

  // ----- rows that were made stay as they were made

  predicate RequestsKept(t: Tables, t': Tables) {
    forall r | r in t.requests ::
      r in t'.requests && t'.requests[r].slot == t.requests[r].slot && t'.requests[r].scope == t.requests[r].scope
  }

  lemma EditKeepsRequests(s: State, p: nat, c: Call)
    requires c.EditRead? || c.EditLook? || c.EditCommit?
    ensures RequestsKept(s.t, EditStep(s, p, c).t)
  {
  }

  lemma AskKeepsRequests(s: State, p: nat, c: Call, clock: int)
    requires c.AskRead? || c.AskVersion? || c.AskCommit?
    requires s.t.nextId !in s.t.requests
    ensures RequestsKept(s.t, AskStep(s, p, c, clock).t)
  {
  }

  lemma JudgeKeepsRequests(s: State, p: nat, c: Call, pick: Option<nat>)
    requires c.JudgeRead? || c.JudgeVersion? || c.JudgeRequest? || c.JudgeCommit?
    ensures RequestsKept(s.t, JudgeStep(s, p, c, pick).t)
  {
  }

  lemma AdvanceKeepsRequests(s: State, p: nat, c: Call, clock: int, pick: Option<nat>)
    requires s.t.nextId !in s.t.requests
    ensures RequestsKept(s.t, Advance(s, p, c, clock, pick).t)
  {
    if c.EditRead? || c.EditLook? || c.EditCommit? {
      EditKeepsRequests(s, p, c);
    } else if c.AskRead? || c.AskVersion? || c.AskCommit? {
      AskKeepsRequests(s, p, c, clock);
    } else if c.PromoteRead? || c.PromoteMax? || c.PromoteCommit? {
      assert PromoteStep(s, p, c).t.requests == s.t.requests;
    } else if !c.Ended? {
      JudgeKeepsRequests(s, p, c, pick);
    }
  }

  lemma ActionKeepsRequests(s: State, a: Action)
    requires RaceInv(s)
    ensures RequestsKept(s.t, Apply(s, a).t)
  {
    Parts(s);
    assert s.t.nextId in s.t.requests ==> RequestLinked(s.t, s.t.nextId);
    if a.Step? && a.p in s.calls {
      AdvanceKeepsRequests(s, a.p, s.calls[a.p], a.clock, a.pick);
    }
  }

  lemma StaysOf(t: Tables, t': Tables, begun: Call, c: Call)
    requires IsOf(t, begun, c) && Kept(t, t') && RequestsKept(t, t')
    ensures IsOf(t', begun, c)
  {
  }

  // ----- one statement

  lemma EditIsOf(s: State, p: nat, begun: Call, c: Call)
    requires (c.EditRead? || c.EditLook? || c.EditCommit?) && IsOf(s.t, begun, c)
    ensures var s' := EditStep(s, p, c); p in s'.calls && IsOf(s'.t, begun, s'.calls[p])
  {
  }

  lemma AskIsOf(s: State, p: nat, begun: Call, c: Call, clock: int)
    requires (c.AskRead? || c.AskVersion? || c.AskCommit?) && IsOf(s.t, begun, c)
    ensures var s' := AskStep(s, p, c, clock); p in s'.calls && IsOf(s'.t, begun, s'.calls[p])
  {
  }

  lemma JudgeIsOf(s: State, p: nat, begun: Call, c: Call, pick: Option<nat>)
    requires c.JudgeRead? || c.JudgeVersion? || c.JudgeRequest? || c.JudgeCommit?
    requires IsOf(s.t, begun, c) && p in s.calls && s.calls[p] == c
    ensures var s' := JudgeStep(s, p, c, pick); p in s'.calls && IsOf(s'.t, begun, s'.calls[p])
  {
  }

  lemma PromoteIsOf(s: State, p: nat, begun: Call, c: Call)
    requires (c.PromoteRead? || c.PromoteMax? || c.PromoteCommit?) && IsOf(s.t, begun, c)
    ensures var s' := PromoteStep(s, p, c); p in s'.calls && IsOf(s'.t, begun, s'.calls[p])
  {
  }

  lemma AdvanceIsOf(s: State, p: nat, begun: Call, clock: int, pick: Option<nat>)
    requires p in s.calls && IsOf(s.t, begun, s.calls[p])
    ensures var s' := Advance(s, p, s.calls[p], clock, pick); p in s'.calls && IsOf(s'.t, begun, s'.calls[p])
  {
    var c := s.calls[p];
    if c.EditRead? || c.EditLook? || c.EditCommit? {
      EditIsOf(s, p, begun, c);
    } else if c.AskRead? || c.AskVersion? || c.AskCommit? {
      AskIsOf(s, p, begun, c, clock);
    } else if c.PromoteRead? || c.PromoteMax? || c.PromoteCommit? {
      PromoteIsOf(s, p, begun, c);
    } else if !c.Ended? {
      JudgeIsOf(s, p, begun, c, pick);
    }
  }

  /** Another process's action leaves a call where it is. */
  lemma OthersLeaveCall(s: State, a: Action, p: nat)
    requires p in s.calls && !(a.Step? && a.p == p) && p in Apply(s, a).calls
    ensures Apply(s, a).calls[p] == s.calls[p]
  {
  }

  lemma ActionIsOf(s: State, a: Action, p: nat, begun: Call)
    requires RaceInv(s) && p in s.calls && IsOf(s.t, begun, s.calls[p]) && p in Apply(s, a).calls
    ensures IsOf(Apply(s, a).t, begun, Apply(s, a).calls[p])
  {
    if a.Step? && a.p == p {
      AdvanceIsOf(s, p, begun, a.clock, a.pick);
    } else {
      OthersLeaveCall(s, a, p);
      ActionKeepsRows(s, a);
      ActionKeepsRequests(s, a);
      StaysOf(s.t, Apply(s, a).t, begun, s.calls[p]);
    }
  }

  lemma NewCallIsBegun(s: State, a: Action, p: nat)
    requires p !in s.calls && p in Apply(s, a).calls
    ensures a.Begin? && a.p == p && a.call.Starts() && Apply(s, a).calls[p] == a.call
  {
  }

  /** Every call has what it began with, and what it answers is true of the rows, as they are now. */
  lemma {:induction false} AnswersAreTrue(actions: seq<Action>, p: nat)
    requires p in Interleaved(actions).calls
    ensures var s := Interleaved(actions);
      Begun(actions, p).Some? && Begun(actions, p).value.Starts() && IsOf(s.t, Begun(actions, p).value, s.calls[p])
  {
    if actions != [] {
      var before, last := actions[..|actions| - 1], actions[|actions| - 1];
      if p in Interleaved(before).calls {
        AnswersAreTrue(before, p);
        ReachableRace(before);
        ActionIsOf(Interleaved(before), last, p, Begun(before, p).value);
      } else {
        NewCallIsBegun(Interleaved(before), last, p);
      }
    }
  }

  /** A call begun with a text that answers with a version has stored this text there, for good. */
  lemma {:induction false} EditStoresItsText(actions: seq<Action>, p: nat, slot: Slot)
    requires var s := Interleaved(actions); p in s.calls && s.calls[p] == Ended(VersionAdded(slot))
    ensures var s := Interleaved(actions);
      var begun := Begun(actions, p);
      && begun.Some? && begun.value.EditRead? && slot.draft == begun.value.draft
      && slot in s.t.versions && s.t.versions[slot].content == begun.value.content
      && (slot in s.t.approved ==> s.t.approved[slot].content == begun.value.content)
  {
    AnswersAreTrue(actions, p);
    ReachableRace(actions);
    Parts(Interleaved(actions));
    assert slot in Interleaved(actions).t.approved ==> ApprovedOk(Interleaved(actions).t, slot);
  }

  lemma {:induction false} PromotionStoresItsValue(actions: seq<Action>, p: nat, f: FactKey)
    requires var s := Interleaved(actions); p in s.calls && s.calls[p] == Ended(FactAdded(f))
    ensures var s := Interleaved(actions);
      var begun := Begun(actions, p);
      && begun.Some? && begun.value.PromoteRead? && f in s.t.facts
      && f.scope == begun.value.scope && f.key == Text.Strip(begun.value.key)
      && s.t.facts[f].value == Text.Strip(begun.value.value) && s.t.facts[f].approvedBy == begun.value.actor
      && s.t.facts[f].candidate == begun.value.candidate
  {
    AnswersAreTrue(actions, p);
  }

  // ----- the other way round: every row has a call

  /** The k-th action stored the version: the completion of the draft, or the commit of a call with this text. */
  ghost predicate StoredBy(actions: seq<Action>, k: nat, slot: Slot, content: string) {
    && k < |actions| && slot !in Interleaved(actions[..k]).t.versions
    && ((actions[k] == Complete(slot.draft, content) && slot.number == 1)
        || CallStores(actions[..k + 1], actions[k], slot, content))
  }

  ghost predicate CallStores(upTo: seq<Action>, last: Action, slot: Slot, content: string) {
    && last.Step? && last.p in Interleaved(upTo).calls && Interleaved(upTo).calls[last.p] == Ended(VersionAdded(slot))
    && Begun(upTo, last.p).Some? && Begun(upTo, last.p).value.EditRead?
    && Begun(upTo, last.p).value.content == content && Begun(upTo, last.p).value.draft == slot.draft
  }

  /** Only an edit's commit adds versions to those there are, and only a promotion's adds facts. */
  lemma OthersAddNothing(s: State, p: nat, c: Call, clock: int, pick: Option<nat>)
    ensures !c.EditCommit? ==> Advance(s, p, c, clock, pick).t.versions == s.t.versions
    ensures !c.PromoteCommit? ==> Advance(s, p, c, clock, pick).t.facts == s.t.facts
  {
  }

  lemma EditAdds(s: State, p: nat, c: Call, slot: Slot)
    requires c.EditCommit? && slot !in s.t.versions && slot in EditStep(s, p, c).t.versions
    ensures p in EditStep(s, p, c).calls && EditStep(s, p, c).calls[p] == Ended(VersionAdded(slot))
  {
  }

  lemma PromotionAdds(s: State, p: nat, c: Call, f: FactKey)
    requires c.PromoteCommit? && f !in s.t.facts && f in PromoteStep(s, p, c).t.facts
    ensures p in PromoteStep(s, p, c).calls && PromoteStep(s, p, c).calls[p] == Ended(FactAdded(f))
  {
  }

  lemma NewVersionHasAction(s: State, a: Action, slot: Slot)
    requires slot !in s.t.versions && slot in Apply(s, a).t.versions
    ensures || (a == Complete(slot.draft, Apply(s, a).t.versions[slot].content) && slot.number == 1)
            || (a.Step? && a.p in Apply(s, a).calls && Apply(s, a).calls[a.p] == Ended(VersionAdded(slot)))
  {
    if a.Step? && a.p in s.calls {
      OthersAddNothing(s, a.p, s.calls[a.p], a.clock, a.pick);
      EditAdds(s, a.p, s.calls[a.p], slot);
    }
  }

  lemma NewFactHasAction(s: State, a: Action, f: FactKey)
    requires f !in s.t.facts && f in Apply(s, a).t.facts
    ensures a.Step? && a.p in Apply(s, a).calls && Apply(s, a).calls[a.p] == Ended(FactAdded(f))
  {
    if a.Step? && a.p in s.calls {
      OthersAddNothing(s, a.p, s.calls[a.p], a.clock, a.pick);
      PromotionAdds(s, a.p, s.calls[a.p], f);
    }
  }

  lemma {:induction false} StoredEarlier(actions: seq<Action>, k: nat, slot: Slot, content: string)
    requires actions != [] && StoredBy(actions[..|actions| - 1], k, slot, content)
    ensures StoredBy(actions, k, slot, content)
  {
    assert actions[..|actions| - 1][..k] == actions[..k];
    assert actions[..|actions| - 1][..k + 1] == actions[..k + 1];
  }

  /** Every version has the text of the call that stored it, or of the completion of its draft. */
  lemma {:induction false} VersionHasItsText(actions: seq<Action>, slot: Slot) returns (k: nat)
    requires slot in Interleaved(actions).t.versions
    ensures StoredBy(actions, k, slot, Interleaved(actions).t.versions[slot].content)
  {
    var n := |actions| - 1;
    var s := Interleaved(actions[..n]);
    assert actions[..n] + [actions[n]] == actions && actions[..n + 1] == actions;
    if slot in s.t.versions {
      k := VersionHasItsText(actions[..n], slot);
      RowsStay(actions[..n], [actions[n]]);
      StoredEarlier(actions, k, slot, s.t.versions[slot].content);
    } else {
      k := n;
      NewVersionHasAction(s, actions[n], slot);
      if !actions[n].Complete? {
        AnswersAreTrue(actions, actions[n].p);
      }
    }
  }

  /** The k-th action promoted the fact, for a call with this key, value and actor. */
  ghost predicate PromotedBy(actions: seq<Action>, k: nat, f: FactKey, x: Fact) {
    && k < |actions| && f !in Interleaved(actions[..k]).t.facts && actions[k].Step?
    && var begun := Begun(actions[..k + 1], actions[k].p);
    && begun.Some? && begun.value.PromoteRead? && f.scope == begun.value.scope && f.key == Text.Strip(begun.value.key)
    && x.value == Text.Strip(begun.value.value) && x.approvedBy == begun.value.actor
    && x.candidate == begun.value.candidate
  }

  /** Every fact has the key, the value and the actor of the call that promoted it. */
  lemma {:induction false} FactHasItsValue(actions: seq<Action>, f: FactKey) returns (k: nat)
    requires f in Interleaved(actions).t.facts
    ensures PromotedBy(actions, k, f, Interleaved(actions).t.facts[f])
  {
    var n := |actions| - 1;
    var s := Interleaved(actions[..n]);
    assert actions[..n] + [actions[n]] == actions && actions[..n + 1] == actions;
    if f in s.t.facts {
      k := FactHasItsValue(actions[..n], f);
      RowsStay(actions[..n], [actions[n]]);
      assert actions[..n][..k] == actions[..k] && actions[..n][..k + 1] == actions[..k + 1];
    } else {
      k := n;
      NewFactHasAction(s, actions[n], f);
      AnswersAreTrue(actions, actions[n].p);
    }
  }
}
