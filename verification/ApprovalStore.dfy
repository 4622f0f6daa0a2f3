/** The workflow operations as they update their tables in place, against the transactions of module
    Approval. */
module ApprovalStore {
  import A = Approval
  import Text
  import opened Wrappers

  class Store {
    var drafts: map<nat, A.Draft>
    var versions: map<A.Slot, A.Version>
    var requests: map<nat, A.Request>
    var decisions: map<nat, A.Decision>
    var approved: map<A.Slot, A.Approved>
    var candidates: map<nat, A.Candidate>
    var facts: map<A.FactKey, A.Fact>
    var nextId: nat

    function View(): A.Tables
      reads this
    {
      A.Tables(drafts, versions, requests, decisions, approved, candidates, facts, nextId)
    }

    constructor ()
      ensures View() == A.NoTables()
    {
      drafts, versions, requests, decisions := map[], map[], map[], map[];
      approved, candidates, facts, nextId := map[], map[], map[], 0;
    }

    method InvalidateAwaiting(tenant: string, d: nat)
      modifies this`requests
      ensures requests == A.Invalidate(old(requests), tenant, d)
    {
      var awaiting := set r | r in requests && requests[r].scope.tenant == tenant && requests[r].slot.draft == d
                              && requests[r].status.Awaiting?;
      var todo := awaiting;
      while todo != {}
        invariant todo <= awaiting
        invariant requests.Keys == old(requests).Keys
        invariant forall r | r in requests ::
          requests[r] == if r in awaiting - todo then old(requests)[r].(status := A.Invalidated) else old(requests)[r]
        decreases |todo|
      {
        var r :| r in todo;
        requests := requests[r := requests[r].(status := A.Invalidated)];
        todo := todo - {r};
      }
      ghost var all := A.Invalidate(old(requests), tenant, d);
      assert requests.Keys == all.Keys;
      assert forall r | r in requests :: requests[r] == all[r];
    }

    method AddVersion(scope: A.Scope, d: nat, content: string) returns (answer: A.Answer)
      modifies this
      ensures A.Outcome(View(), answer) == A.AddVersion(old(View()), scope, d, content)
    {
      if d !in drafts || drafts[d].scope != scope {
        return A.NotFound;
      }
      if Text.Blank(content) {
        return A.ContentRequired;
      }
      var n := drafts[d].currentVersion + 1;
      if A.Slot(d, n) in versions {
        return A.IntegrityError;
      }
      versions := versions[A.Slot(d, n) := A.Version(drafts[d].scope, content, A.Sha(content))];
      drafts := drafts[d := drafts[d].(currentVersion := n, status := "criticized")];
      InvalidateAwaiting(scope.tenant, d);
      return A.VersionAdded(A.Slot(d, n));
    }

    method RequestApproval(scope: A.Scope, d: nat, slot: A.Slot, now: int) returns (answer: A.Answer)
      modifies this
      ensures A.Outcome(View(), answer) == A.RequestApproval(old(View()), scope, d, slot, now)
    {
      if d !in drafts || drafts[d].scope != scope || slot !in versions || slot.draft != d || versions[slot].scope != scope {
        return A.NotFound;
      }
      if slot.number != drafts[d].currentVersion {
        return A.RequiresCurrentVersion;
      }
      var id := nextId;
      nextId := nextId + 1;
      drafts := drafts[d := drafts[d].(status := "awaiting_approval")];
      requests := requests[id := A.Request(scope, slot, versions[slot].sha, A.Awaiting, now)];
      return A.ApprovalRequested(id);
    }

    method FindNewest(scope: A.Scope, slot: A.Slot) returns (pick: Option<nat>)
      ensures A.NewestAwaiting(View(), scope, slot, pick)
    {
      pick := None;
      var todo := requests.Keys;
      while todo != {}
        invariant todo <= requests.Keys
        invariant pick.None? ==> forall r | r in requests && r !in todo :: !A.AwaitingFor(View(), scope, slot, r)
        invariant pick.Some? ==> A.AwaitingFor(View(), scope, slot, pick.value)
        invariant pick.Some? ==> forall r | r in requests && r !in todo && A.AwaitingFor(View(), scope, slot, r) ::
          requests[r].createdAt <= requests[pick.value].createdAt
        decreases |todo|
      {
        var r :| r in todo;
        if A.AwaitingFor(View(), scope, slot, r)
           && (pick.None? || requests[r].createdAt > requests[pick.value].createdAt) {
          pick := Some(r);
        }
        todo := todo - {r};
      }
    }

    method Decide(scope: A.Scope, d: nat, slot: A.Slot, v: A.Verdict) returns (answer: A.Answer, pick: Option<nat>)
      modifies this
      ensures A.NewestAwaiting(old(View()), scope, slot, pick)
      ensures A.Outcome(View(), answer) == A.Decide(old(View()), scope, d, slot, pick, v)
    {
      pick := FindNewest(scope, slot);
      if d !in drafts || drafts[d].scope != scope || slot !in versions || slot.draft != d || versions[slot].scope != scope
         || pick.None? {
        return A.NotFound, pick;
      }
      var r := pick.value;
      var version := versions[slot];
      if slot.number != drafts[d].currentVersion || A.Sha(version.content) != requests[r].sha {
        return A.ApprovalInvalidated, pick;
      }
      if v.Approve? && slot in approved {
        return A.IntegrityError, pick;
      }
      var decision := nextId;
      requests := requests[r := requests[r].(status := A.Decided(v))];
      drafts := drafts[d := drafts[d].(status := if v.Approve? then "approved" else "rejected")];
      decisions := decisions[decision := A.Decision(r, slot, v, if v.Approve? then Some(version.sha) else None)];
      nextId := nextId + 1;
      if v.Approve? {
        approved := approved[slot := A.Approved(scope, decision, version.content, version.sha, nextId)];
        candidates := candidates[nextId := A.Candidate(scope, slot, version.sha, None)];
        nextId := nextId + 1;
      }
      return A.DecisionRecorded(decision), pick;
    }

    method MaxNumber(scope: A.Scope, key: string) returns (m: nat)
      ensures m == A.MaxOf(A.NumbersOf(View(), scope, key))
    {
      m := 0;
      var todo := facts.Keys;
      while todo != {}
        invariant todo <= facts.Keys
        invariant forall f | f in facts && f !in todo && f.scope == scope && f.key == key :: f.number <= m
        invariant m == 0 || A.FactKey(scope, key, m) in facts
        decreases |todo|
      {
        var f :| f in todo;
        if f.scope == scope && f.key == key && f.number > m {
          m := f.number;
        }
        todo := todo - {f};
      }
      ghost var numbers := A.NumbersOf(View(), scope, key);
      assert m != 0 ==> m in numbers;
      assert forall n | n in numbers :: n <= m;
    }

    method ApproveMemoryCandidate(scope: A.Scope, c: nat, actor: string, key: string, value: string) returns (answer: A.Answer)
      modifies this
      ensures A.Outcome(View(), answer) == A.PromoteCandidate(old(View()), scope, c, actor, key, value)
    {
      if c !in candidates || candidates[c].scope != scope || candidates[c].fact.Some? {
        return A.NotFound;
      }
      if Text.Blank(key) || Text.Blank(value) {
        return A.KeyAndValueRequired;
      }
      var k := Text.Strip(key);
      var m := MaxNumber(scope, k);
      var f := A.FactKey(scope, k, m + 1);
      if f in facts {
        return A.IntegrityError;
      }
      facts := facts[f := A.Fact(Text.Strip(value), candidates[c].source, actor, c)];
      candidates := candidates[c := candidates[c].(fact := Some(f))];
      return A.FactAdded(f);
    }
  }
}
