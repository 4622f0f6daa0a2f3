/** What each approval call writes, row by row, and that every row has what its call was given. Calls do not
    overlap here. */
module ApprovalContents {
  import Text
  import opened Wrappers
  import opened Approval
  import opened ApprovalCustody
  import opened ApprovalTheorems

  // ----- one call

  /** The requests of a draft that awaited are invalidated, all others stay. */
  predicate AwaitingInvalidated(t: Tables, t': Tables, tenant: string, d: nat) {
    && t'.requests.Keys == t.requests.Keys
    && forall r | r in t.requests ::
         t'.requests[r] ==
         if t.requests[r].scope.tenant == tenant && t.requests[r].slot.draft == d && t.requests[r].status.Awaiting?
         then t.requests[r].(status := Invalidated) else t.requests[r]
  }

  predicate Stores(t: Tables, t': Tables, d: nat, n: nat, content: string)
    requires d in t.drafts
  {
    && t'.versions == t.versions[Slot(d, n) := Version(t.drafts[d].scope, content, Sha(content))]
    && t'.drafts == t.drafts[d := t.drafts[d].(currentVersion := n, status := "criticized")]
    && t'.decisions == t.decisions && t'.approved == t.approved && t'.candidates == t.candidates && t'.facts == t.facts
  }

  /** add_version succeeds for a draft of the caller, a text that is not blank and a free number; it stores the given
      text as the next version. */
  lemma AddVersionStores(t: Tables, scope: Scope, d: nat, content: string)
    ensures var o := AddVersion(t, scope, d, content);
      && (o.answer.VersionAdded? <==>
          && DraftIn(t, scope, d) && !Text.Blank(content)
          && Slot(d, t.drafts[d].currentVersion + 1) !in t.versions)
      && (o.answer.NotFound? <==> !DraftIn(t, scope, d))
      && (o.answer.ContentRequired? <==> DraftIn(t, scope, d) && Text.Blank(content))
      && (if o.answer.VersionAdded?
          then
            && o.answer.slot == Slot(d, t.drafts[d].currentVersion + 1)
            && Stores(t, o.tables, d, o.answer.slot.number, content)
            && AwaitingInvalidated(t, o.tables, scope.tenant, d)
          else o.tables == t)
  {
  }

  lemma CompleteStores(t: Tables, d: nat, content: string)
    ensures var o := CompleteDraft(t, d, content);
      && (o.answer == VersionAdded(Slot(d, 1)) <==> d in t.drafts && Slot(d, 1) !in t.versions)
      && (if o.answer.VersionAdded? then Stores(t, o.tables, d, 1, content) && o.tables.requests == t.requests
          else o.tables == t)
  {
  }

  /** A request is made exactly for the current version of a draft of the caller. */
  lemma RequestAsks(t: Tables, scope: Scope, d: nat, slot: Slot, now: int)
    ensures var o := RequestApproval(t, scope, d, slot, now);
      && (o.answer.ApprovalRequested? <==>
          DraftIn(t, scope, d) && VersionIn(t, scope, d, slot) && slot.number == t.drafts[d].currentVersion)
      && (o.answer.NotFound? <==> !DraftIn(t, scope, d) || !VersionIn(t, scope, d, slot))
      && (o.answer.RequiresCurrentVersion? <==> !o.answer.ApprovalRequested? && !o.answer.NotFound?)
      && (if o.answer.ApprovalRequested?
          then
            && o.tables.requests == t.requests[o.answer.request := Request(scope, slot, t.versions[slot].sha, Awaiting, now)]
            && o.tables.drafts == t.drafts[d := t.drafts[d].(status := "awaiting_approval")]
            && o.tables.versions == t.versions && o.tables.decisions == t.decisions && o.tables.approved == t.approved
            && o.tables.candidates == t.candidates && o.tables.facts == t.facts
          else o.tables == t)
  {
  }

  /** A decision of the newest awaiting request of a current version goes through, unless it approves again what is
      approved; it closes that request alone, and an approval copies the version and leaves a candidate. */
  lemma DecideWrites(t: Tables, scope: Scope, d: nat, slot: Slot, r: nat, v: Verdict)
    requires AwaitingFor(t, scope, slot, r)
    ensures var o := Decide(t, scope, d, slot, Some(r), v);
      && (o.answer.DecisionRecorded? <==>
          && DraftIn(t, scope, d) && VersionIn(t, scope, d, slot) && slot.number == t.drafts[d].currentVersion
          && Sha(t.versions[slot].content) == t.requests[r].sha && (v.Approve? ==> slot !in t.approved))
      && (o.answer.NotFound? <==> !DraftIn(t, scope, d) || !VersionIn(t, scope, d, slot))
      && (o.answer.ApprovalInvalidated? <==>
          && !o.answer.NotFound?
          && (slot.number != t.drafts[d].currentVersion || Sha(t.versions[slot].content) != t.requests[r].sha))
      && (if o.answer.DecisionRecorded? then Decides(t, o.tables, scope, d, slot, r, v, o.answer.decision) else o.tables == t)
  {
  }

  predicate Decides(t: Tables, t': Tables, scope: Scope, d: nat, slot: Slot, r: nat, v: Verdict, x: nat)
    requires d in t.drafts && slot in t.versions && r in t.requests
  {
    var version := t.versions[slot];
    && t'.requests == t.requests[r := t.requests[r].(status := Decided(v))]
    && t'.drafts == t.drafts[d := t.drafts[d].(status := if v.Approve? then "approved" else "rejected")]
    && t'.decisions == t.decisions[x := Decision(r, slot, v, if v.Approve? then Some(version.sha) else None)]
    && t'.versions == t.versions && t'.facts == t.facts
    && if v.Approve? then
         && slot in t'.approved
         && var c := t'.approved[slot].candidate;
         && t'.approved == t.approved[slot := Approved(scope, x, version.content, version.sha, c)]
         && t'.candidates == t.candidates[c := Candidate(scope, slot, version.sha, None)]
       else t'.approved == t.approved && t'.candidates == t.candidates
  }

  /** A pending candidate of the caller becomes one fact, with the stripped key and value it was given. */
  lemma PromoteWrites(t: Tables, scope: Scope, c: nat, actor: string, key: string, value: string)
    ensures var o := PromoteCandidate(t, scope, c, actor, key, value);
      && (o.answer.NotFound? <==> !(c in t.candidates && t.candidates[c].scope == scope && t.candidates[c].fact.None?))
      && (o.answer.FactAdded? <==> !o.answer.NotFound? && !Text.Blank(key) && !Text.Blank(value))
      && (o.answer.KeyAndValueRequired? <==> !o.answer.NotFound? && !o.answer.FactAdded?)
      && (if o.answer.FactAdded?
          then
            var f := o.answer.fact;
            && f.scope == scope && f.key == Text.Strip(key) && f.number == MaxOf(NumbersOf(t, scope, f.key)) + 1
            && o.tables.facts == t.facts[f := Fact(Text.Strip(value), t.candidates[c].source, actor, c)]
            && o.tables.candidates == t.candidates[c := t.candidates[c].(fact := Some(f))]
            && o.tables.drafts == t.drafts && o.tables.versions == t.versions && o.tables.requests == t.requests
            && o.tables.decisions == t.decisions && o.tables.approved == t.approved
          else o.tables == t)
  {
    var k := Text.Strip(key);
    assert forall f | f in t.facts && f.scope == scope && f.key == k :: f.number in NumbersOf(t, scope, k);
  }

  lemma CreateOpens(t: Tables, scope: Scope)
    ensures var o := CreateDraft(t, scope);
      && o.answer.DraftCreated?
      && o.tables == t.(drafts := t.drafts[o.answer.draft := Draft(scope, "contextualized", 0)], nextId := o.tables.nextId)
  {
  }

  // ----- whole runs

  /** Every draft belongs to the tenant and project of the call that created it. */
  lemma {:induction false} DraftHasItsScope(events: seq<Event>, d: nat) returns (k: nat)
    requires d in Run(events).drafts
    ensures k < |events| && events[k] == DoCreate(Run(events).drafts[d].scope)
    ensures Perform(Run(events[..k]), events[k]).answer == DraftCreated(d)
  {
    var n := |events| - 1;
    var t := Run(events[..n]);
    CustodyHolds(events[..n]);
    if d in t.drafts {
      k := DraftHasItsScope(events[..n], d);
      ScopeStays(t, events[n], d);
      assert events[..n][..k] == events[..k];
    } else {
      k := n;
      NewDraftIsCreated(t, events[n], d);
    }
  }

  lemma ScopeStays(t: Tables, ev: Event, d: nat)
    requires d in t.drafts && t.nextId !in t.drafts
    ensures d in Perform(t, ev).tables.drafts && Perform(t, ev).tables.drafts[d].scope == t.drafts[d].scope
  {
  }

  lemma NewDraftIsCreated(t: Tables, ev: Event, d: nat)
    requires d !in t.drafts && d in Perform(t, ev).tables.drafts
    ensures ev == DoCreate(Perform(t, ev).tables.drafts[d].scope) && Perform(t, ev).answer == DraftCreated(d)
  {
  }

  /** A recorded decision closes an awaiting request for that very version of the caller, and none that awaits for
      it is newer. */
  lemma DecidesTheNewest(t: Tables, scope: Scope, d: nat, slot: Slot, p: nat, v: Verdict)
    requires Perform(t, DoDecide(scope, d, slot, Some(p), v)).answer.DecisionRecorded?
    ensures p in t.requests && t.requests[p].scope == scope && t.requests[p].slot == slot && t.requests[p].status.Awaiting?
    ensures forall r | r in t.requests && t.requests[r].scope == scope && t.requests[r].slot == slot
                       && t.requests[r].status.Awaiting? :: t.requests[r].createdAt <= t.requests[p].createdAt
  {
    forall r | r in t.requests && t.requests[r].scope == scope && t.requests[r].slot == slot
               && t.requests[r].status.Awaiting?
      ensures t.requests[r].createdAt <= t.requests[p].createdAt
    {
      assert AwaitingFor(t, scope, slot, r);
    }
  }

  /** The event stores a text as this version. */
  predicate StoresAs(ev: Event, slot: Slot, content: string) {
    || (ev.DoAddVersion? && ev.draft == slot.draft && ev.content == content)
    || (ev.DoComplete? && ev.draft == slot.draft && ev.content == content && slot.number == 1)
  }

  /** The k-th call added the version, with this text. */
  ghost predicate AddedBy(events: seq<Event>, k: nat, slot: Slot, content: string) {
    && k < |events| && StoresAs(events[k], slot, content)
    && Perform(Run(events[..k]), events[k]).answer == VersionAdded(slot)
  }

  lemma NewVersionIsStored(t: Tables, ev: Event, slot: Slot)
    requires slot !in t.versions && slot in Perform(t, ev).tables.versions
    ensures Perform(t, ev).answer == VersionAdded(slot) && StoresAs(ev, slot, Perform(t, ev).tables.versions[slot].content)
  {
  }

  lemma {:induction false} AddedBefore(events: seq<Event>, k: nat, slot: Slot, content: string)
    requires events != [] && AddedBy(events[..|events| - 1], k, slot, content)
    ensures AddedBy(events, k, slot, content)
  {
    assert events[..|events| - 1][..k] == events[..k];
  }

  /** Every version has the text of the call that added it, and so has the approved version made of it. */
  lemma {:induction false} VersionHasItsText(events: seq<Event>, slot: Slot) returns (k: nat)
    requires slot in Run(events).versions
    ensures AddedBy(events, k, slot, Run(events).versions[slot].content)
    ensures slot in Run(events).approved ==> AddedBy(events, k, slot, Run(events).approved[slot].content)
  {
    var n := |events| - 1;
    var t := Run(events[..n]);
    if slot in t.versions {
      k := VersionHasItsText(events[..n], slot);
      CustodyHolds(events[..n]);
      OpKeepsVersion(t, events[n], slot);
      AddedBefore(events, k, slot, t.versions[slot].content);
    } else {
      k := n;
      NewVersionIsStored(t, events[n], slot);
    }
    CustodyHolds(events);
    assert slot in Run(events).approved ==> ApprovedOk(Run(events), slot);
  }

  /** The k-th call added the fact, with this value. */
  ghost predicate PromotedBy(events: seq<Event>, k: nat, f: FactKey, x: Fact) {
    && k < |events| && Perform(Run(events[..k]), events[k]).answer == FactAdded(f)
    && var ev := events[k];
    && ev.DoPromote? && f.scope == ev.scope && f.key == Text.Strip(ev.key)
    && x.value == Text.Strip(ev.value) && x.approvedBy == ev.actor && x.candidate == ev.candidate
    && !Text.Blank(ev.key) && !Text.Blank(ev.value)
  }

  lemma NewFactIsGiven(t: Tables, ev: Event, f: FactKey)
    requires f !in t.facts && f in Perform(t, ev).tables.facts
    ensures Perform(t, ev).answer == FactAdded(f) && ev.DoPromote?
    ensures var x := Perform(t, ev).tables.facts[f];
      && f.scope == ev.scope && f.key == Text.Strip(ev.key)
      && x.value == Text.Strip(ev.value) && x.approvedBy == ev.actor && x.candidate == ev.candidate
      && !Text.Blank(ev.key) && !Text.Blank(ev.value)
  {
  }

  /** Every fact has the key, the value and the actor of the call that promoted it. */
  lemma {:induction false} FactHasItsValue(events: seq<Event>, f: FactKey) returns (k: nat)
    requires f in Run(events).facts
    ensures PromotedBy(events, k, f, Run(events).facts[f])
  {
    var n := |events| - 1;
    var t := Run(events[..n]);
    if f in t.facts {
      k := FactHasItsValue(events[..n], f);
      OpKeepsFact(t, events[n], f);
      assert events[..n][..k] == events[..k];
    } else {
      k := n;
      NewFactIsGiven(t, events[n], f);
    }
  }
}
