/** What the approval workflow promises over whole runs of calls that do not overlap. */
module ApprovalTheorems {
  import opened Wrappers
  import opened Approval
  import opened ApprovalCustody

  /** Every memory fact traces through exactly one candidate to an approved version, whose text is the
      text of its draft version and carries the hash that was requested, decided and promoted. */
  lemma {:induction false} FactProvenance(events: seq<Event>, f: FactKey)
    requires f in Run(events).facts
    ensures var t := Run(events);
      var x := t.facts[f];
      && x.candidate in t.candidates
      && (forall c | c in t.candidates && t.candidates[c].fact == Some(f) :: c == x.candidate)
      && var k := t.candidates[x.candidate];
      && k.fact == Some(f) && k.source == x.source && k.scope == f.scope
      && x.source in t.approved && x.source in t.versions
      && var a := t.approved[x.source];
      && a.scope == f.scope
      && a.content == t.versions[x.source].content && a.sha == Sha(a.content) && k.sha == a.sha
      && a.decision in t.decisions
      && var d := t.decisions[a.decision];
      && d.verdict.Approve? && d.approvedSha == Some(a.sha) && d.slot == x.source
      && d.request in t.requests
      && t.requests[d.request].status == Decided(Approve) && t.requests[d.request].sha == a.sha
  {
    CustodyHolds(events);
    var t := Run(events);
    assert FactOk(t, f);
    var c := t.facts[f].candidate;
    assert CandidateOk(t, c);
    assert ApprovedOk(t, t.facts[f].source);
    assert DecisionOk(t, t.approved[t.facts[f].source].decision);
    assert VersionOk(t, t.facts[f].source);
    forall x | x in t.candidates && t.candidates[x].fact == Some(f)
      ensures x == c
    {
      assert CandidateOk(t, x);
    }
  }

  lemma {:induction false} EarlierFacts(t: Tables, f: FactKey, n: nat)
    requires FactsOk(t) && f in t.facts && 1 <= n <= f.number
    ensures FactKey(f.scope, f.key, n) in t.facts
    decreases f.number
  {
    assert FactOk(t, f);
    if n < f.number {
      EarlierFacts(t, FactKey(f.scope, f.key, f.number - 1), n);
    }
  }

  /** The facts of a key are numbered 1..n without gap. */
  lemma {:induction false} FactsAreNumbered(events: seq<Event>, scope: Scope, key: string, n: nat)
    ensures var t := Run(events);
      FactKey(scope, key, n) in t.facts <==> 1 <= n <= MaxOf(NumbersOf(t, scope, key))
  {
    CustodyHolds(events);
    var t := Run(events);
    var numbers := NumbersOf(t, scope, key);
    var m := MaxOf(numbers);
    if FactKey(scope, key, n) in t.facts {
      assert n in numbers;
      assert FactOk(t, FactKey(scope, key, n));
    }
    if 1 <= n <= m {
      assert m in numbers;
      EarlierFacts(t, FactKey(scope, key, m), n);
    }
  }

  /** Without overlapping calls no decision is refused as invalidated: a new version invalidates every
      awaiting request in its own transaction, and contents never change. */
  lemma {:induction false} SerialDecisionsAreFresh(events: seq<Event>, scope: Scope, d: nat, slot: Slot,
                                                   pick: Option<nat>, v: Verdict)
    ensures Perform(Run(events), DoDecide(scope, d, slot, pick, v)).answer != ApprovalInvalidated
  {
    CustodyHolds(events);
    var t := Run(events);
    if pick.Some? && AwaitingFor(t, scope, slot, pick.value) {
      assert RequestOk(t, pick.value) && VersionOk(t, slot);
    }
  }

  lemma DecideAgain(t: Tables, scope: Scope, slot: Slot, r: nat, v: Verdict)
    requires slot in t.approved && slot in t.versions && slot.draft in t.drafts
    requires t.drafts[slot.draft].scope == scope && t.versions[slot].scope == scope
    requires slot.number == t.drafts[slot.draft].currentVersion
    requires r in t.requests && t.requests[r].sha == Sha(t.versions[slot].content)
    ensures var o := Decide(t, scope, slot.draft, slot, Some(r), v);
      if v.Approve? then o == Outcome(t, IntegrityError)
      else o == Outcome(RecordDecision(t, slot.draft, slot, r, Reject), DecisionRecorded(t.nextId))
  {
  }

  /** Two requests may await on one version. After the first approval, a second approval dies on the
      unique key and leaves no trace, while a rejection still goes through and turns the draft's status
      although the approved version stays. */
  lemma {:induction false} SecondDecision(events: seq<Event>, scope: Scope, slot: Slot, r: nat, v: Verdict)
    requires var t := Run(events);
      slot in t.approved && t.approved[slot].scope == scope && NewestAwaiting(t, scope, slot, Some(r))
    ensures var t := Run(events);
      var o := Perform(t, DoDecide(scope, slot.draft, slot, Some(r), v));
      if v.Approve? then o.answer == IntegrityError && o.tables == t
      else
        && o.answer.DecisionRecorded? && o.tables.approved == t.approved
        && slot.draft in o.tables.drafts && o.tables.drafts[slot.draft].status == "rejected"
  {
    ApprovedIsCurrent(events, slot, r);
    DecideAgain(Run(events), scope, slot, r, v);
  }

  lemma {:induction false} ApprovedIsCurrent(events: seq<Event>, slot: Slot, r: nat)
    requires var t := Run(events); slot in t.approved && AwaitingFor(t, t.approved[slot].scope, slot, r)
    ensures var t := Run(events);
      && slot in t.versions && slot.draft in t.drafts
      && t.drafts[slot.draft].scope == t.versions[slot].scope == t.approved[slot].scope
      && slot.number == t.drafts[slot.draft].currentVersion
      && t.requests[r].sha == Sha(t.versions[slot].content)
  {
    CustodyHolds(events);
    var t := Run(events);
    assert ApprovedOk(t, slot) && VersionOk(t, slot) && RequestOk(t, r);
  }

  // ----- nothing approved or remembered is rewritten

  lemma OpKeepsVersion(t: Tables, ev: Event, slot: Slot)
    requires VersionsOk(t) && slot in t.versions
    ensures var t' := Perform(t, ev).tables; slot in t'.versions && t'.versions[slot] == t.versions[slot]
  {
    if ev.DoAddVersion? && ev.draft in t.drafts {
      assert slot != Slot(ev.draft, t.drafts[ev.draft].currentVersion + 1) by {
        assert VersionOk(t, slot);
      }
    }
  }

  lemma OpKeepsApproved(t: Tables, ev: Event, slot: Slot)
    requires slot in t.approved
    ensures var t' := Perform(t, ev).tables; slot in t'.approved && t'.approved[slot] == t.approved[slot]
  {
  }

  lemma OpKeepsFact(t: Tables, ev: Event, f: FactKey)
    requires f in t.facts
    ensures var t' := Perform(t, ev).tables; f in t'.facts && t'.facts[f] == t.facts[f]
  {
  }

  lemma {:induction false} RunSplit(events: seq<Event>, last: Event)
    ensures Run(events + [last]) == Perform(Run(events), last).tables
  {
    assert (events + [last])[..|events|] == events;
  }

  lemma {:induction false} VersionStays(events: seq<Event>, more: seq<Event>, slot: Slot)
    requires slot in Run(events).versions
    ensures slot in Run(events + more).versions && Run(events + more).versions[slot] == Run(events).versions[slot]
    decreases |more|
  {
    if more == [] {
      assert events + more == events;
    } else {
      var init, last := more[..|more| - 1], more[|more| - 1];
      VersionStays(events, init, slot);
      assert events + more == events + init + [last];
      RunSplit(events + init, last);
      CustodyHolds(events + init);
      OpKeepsVersion(Run(events + init), last, slot);
    }
  }

  /** An approved version is never changed or removed, and so keeps equal to its draft version. */
  lemma {:induction false} ApprovedVersionStays(events: seq<Event>, more: seq<Event>, slot: Slot)
    requires slot in Run(events).approved
    ensures slot in Run(events + more).approved && Run(events + more).approved[slot] == Run(events).approved[slot]
    decreases |more|
  {
    if more == [] {
      assert events + more == events;
    } else {
      var init, last := more[..|more| - 1], more[|more| - 1];
      ApprovedVersionStays(events, init, slot);
      assert events + more == events + init + [last];
      RunSplit(events + init, last);
      OpKeepsApproved(Run(events + init), last, slot);
    }
  }

  /** A memory fact is never changed or removed. */
  lemma {:induction false} FactStays(events: seq<Event>, more: seq<Event>, f: FactKey)
    requires f in Run(events).facts
    ensures f in Run(events + more).facts && Run(events + more).facts[f] == Run(events).facts[f]
    decreases |more|
  {
    if more == [] {
      assert events + more == events;
    } else {
      var init, last := more[..|more| - 1], more[|more| - 1];
      FactStays(events, init, f);
      assert events + more == events + init + [last];
      RunSplit(events + init, last);
      OpKeepsFact(Run(events + init), last, f);
    }
  }

  /** Without overlapping calls a request is decided at most once. */
  ghost predicate OneDecisionEach(t: Tables) {
    forall x, y | x in t.decisions && y in t.decisions && t.decisions[x].request == t.decisions[y].request :: x == y
  }

  lemma DecideKeepsOneDecision(t: Tables, scope: Scope, d: nat, slot: Slot, r: nat, v: Verdict)
    requires DecisionsOk(t) && OneDecisionEach(t) && AwaitingFor(t, scope, slot, r)
    ensures OneDecisionEach(Decide(t, scope, d, slot, Some(r), v).tables)
  {
    forall x | x in t.decisions
      ensures t.decisions[x].request != r
    {
      assert DecisionOk(t, x);
    }
  }

  lemma OpKeepsOneDecision(t: Tables, ev: Event)
    requires DecisionsOk(t) && OneDecisionEach(t)
    ensures OneDecisionEach(Perform(t, ev).tables)
  {
    if ev.DoDecide? {
      if NewestAwaiting(t, ev.scope, ev.slot, ev.pick) && ev.pick.Some? {
        DecideKeepsOneDecision(t, ev.scope, ev.draft, ev.slot, ev.pick.value, ev.verdict);
      }
    } else {
      assert Perform(t, ev).tables.decisions == t.decisions;
    }
  }

  lemma {:induction false} RequestsAreDecidedOnce(events: seq<Event>)
    ensures OneDecisionEach(Run(events))
  {
    if events != [] {
      RequestsAreDecidedOnce(events[..|events| - 1]);
      CustodyHolds(events[..|events| - 1]);
      OpKeepsOneDecision(Run(events[..|events| - 1]), events[|events| - 1]);
    }
  }
}
