/** The pricing service as it updates its tables in place, against the transactions of module
    PricingAuthority. */
module PricingStore {
  import C = Construction
  import P = PricingAuthority
  import opened Wrappers

  class Store {
    var snapshots: map<nat, P.Snapshot>
    var items: map<nat, P.Item>
    var mappings: map<nat, P.Mapping>
    var estimates: map<nat, P.Estimate>
    var nextId: nat

    function View(): P.Db
      reads this
    {
      P.Db(snapshots, items, mappings, estimates, nextId)
    }

    constructor ()
      ensures View() == P.EMPTY
    {
      snapshots, items, mappings, estimates, nextId := map[], map[], map[], map[], 0;
    }

    /** The loop over the items of a submission; the first bad one fails the whole call. */
    method ReadItems(tenant: string, id: nat, roles: set<P.Role>, requests: seq<P.ItemRequest>)
        returns (r: Result<map<nat, P.Item>, P.PricingError>)
      ensures r.Ok? <==> P.ItemsError(requests, roles).None?
      ensures r.Err? ==> P.ItemsError(requests, roles) == Some(r.error)
      ensures r.Ok? ==> r.value == P.NewItems(tenant, id, roles, requests)
    {
      var added: map<nat, P.Item> := map[];
      var k := 0;
      assert requests[0..] == requests;
      while k < |requests|
        invariant k <= |requests|
        invariant P.ItemsError(requests[k..], roles) == P.ItemsError(requests, roles)
        invariant forall i | i in requests[..k] :: P.ItemError(i, roles).None?
        invariant added == P.NewItems(tenant, id, roles, requests[..k])
      {
        var error := P.ItemError(requests[k], roles);
        assert requests[k..][1..] == requests[k + 1..];
        if error.Some? {
          return Err(error.value);
        }
        assert requests[..k + 1] == requests[..k] + [requests[k]];
        assert requests[..k + 1][..k] == requests[..k];
        added := added[id + k + 1 := P.NewItem(tenant, id, requests[k])];
        k := k + 1;
      }
      assert requests[..k] == requests && requests[k..] == [];
      r := Ok(added);
    }

    method CreatePriceSnapshot(tenant: string, r: P.SnapshotRequest) returns (error: Option<P.PricingError>)
      modifies this
      ensures error == P.SnapshotError(r)
      ensures View() == if error.Some? then old(View()) else P.CreateSnapshot(old(View()), tenant, r)
    {
      if r.source.None? {
        return Some(P.SourceUnknown);
      }
      if r.roles == [] {
        return Some(P.RoleRequired);
      }
      if None in r.roles {
        return Some(P.RoleUnknown);
      }
      var roles := P.Known(r.roles);
      if !(roles <= P.AllowedRoles(r.source.value)) {
        return Some(P.RoleNotAllowed);
      }
      if r.source.value == P.GlipHistorical {
        return Some(P.InternalOnly);
      }
      if !r.evidenceOk {
        return Some(P.EvidenceInvalid);
      }
      var read := ReadItems(tenant, nextId, roles, r.items);
      if read.Err? {
        return Some(read.error);
      }
      snapshots := snapshots[nextId := P.Snapshot(tenant, r.source.value, roles, false, P.Unverified, None)];
      items := items + read.value;
      nextId := nextId + |r.items| + 1;
      return None;
    }

    /** The loop over the items of an approved snapshot. */
    method ApproveItems(tenant: string, id: nat)
      modifies this`items
      ensures items == P.ApproveItems(old(items), tenant, id)
    {
      var found := set i | i in items && P.ItemOf(items[i], tenant, id);
      var todo := found;
      while todo != {}
        invariant todo <= found
        invariant items.Keys == old(items).Keys
        invariant forall i | i in items ::
          items[i] == if i in found - todo then old(items)[i].(approved := true) else old(items)[i]
        decreases |todo|
      {
        var i :| i in todo;
        items := items[i := items[i].(approved := true)];
        todo := todo - {i};
      }
      ghost var all := P.ApproveItems(old(items), tenant, id);
      assert items.Keys == all.Keys;
      assert forall i | i in items :: items[i] == all[i];
    }

    method ApprovePriceSnapshot(tenant: string, role: string, id: nat) returns (error: Option<P.PricingError>)
      modifies this
      ensures error == P.ApproveSnapshotError(old(View()), tenant, role, id)
      ensures View() == if error.Some? then old(View()) else P.ApproveSnapshot(old(View()), tenant, role, id)
    {
      if !P.IsOwner(role) {
        return Some(P.ApproverRequired);
      }
      if id !in snapshots || snapshots[id].tenant != tenant {
        return Some(P.SnapshotNotFound);
      }
      var snapshot := snapshots[id];
      if P.ServerVerified(snapshot.source) {
        return Some(P.ServerVerificationRequired);
      }
      if !P.ManuallyApprovable(snapshot.source) {
        return Some(P.ManualApprovalNotAllowed);
      }
      if forall i | i in items :: !P.ItemOf(items[i], tenant, id) {
        return Some(P.ItemsRequired);
      }
      snapshots := snapshots[id := snapshot.(valid := true, authority := P.HumanApproved, approverRole := Some(role))];
      ApproveItems(tenant, id);
      return None;
    }

    method CreateQuantityMapping(tenant: string, project: string, r: P.MappingRequest)
        returns (error: Option<P.PricingError>)
      modifies this
      ensures error == P.MappingError(old(View()), tenant, r)
      ensures View() == if error.Some? then old(View()) else P.CreateMapping(old(View()), tenant, project, r)
    {
      error := P.MappingError(View(), tenant, r);
      if error.None? {
        var unit := P.Truncated(r.unit, 32);
        mappings := mappings[nextId := P.Mapping(tenant, project, r.item, r.quantity, unit, r.provenance, false, [], None)];
        nextId := nextId + 1;
      }
    }

    method ApproveQuantityMapping(tenant: string, project: string, actor: string, role: string, id: nat)
        returns (error: Option<P.PricingError>)
      modifies this
      ensures error == P.ApproveMappingError(old(View()), tenant, project, role, id)
      ensures View() == if error.Some? then old(View()) else P.ApproveMapping(old(View()), actor, role, id)
    {
      if !P.IsOwner(role) {
        return Some(P.ApproverRequired);
      }
      if id !in mappings || mappings[id].tenant != tenant || mappings[id].project != project {
        return Some(P.MappingNotFound);
      }
      mappings := mappings[id := mappings[id].(approved := true, approvedBy := actor, approverRole := Some(role))];
      return None;
    }

    /** The lines and base_total, mapping by mapping. */
    method CollectLines(tenant: string, ids: seq<nat>) returns (lines: Result<seq<P.Line>, P.PricingError>, base: nat)
      requires forall id | id in ids :: id in mappings
      ensures lines == P.LinesOf(View(), tenant, ids)
      ensures lines.Ok? ==> base == C.Base(P.Amounts(lines.value))
    {
      var collected: seq<P.Line> := [];
      base := 0;
      var k := 0;
      while k < |ids|
        invariant k <= |ids|
        invariant P.LinesOf(View(), tenant, ids[..k]) == Ok(collected)
        invariant base == C.Base(P.Amounts(collected))
      {
        var line := P.LineOf(View(), tenant, ids[k]);
        assert ids[..k + 1][..k] == ids[..k];
        if line.Err? {
          LaterLines(View(), tenant, ids, k + 1, line.error);
          return Err(line.error), base;
        }
        C.BaseSnoc(P.Amounts(collected), P.AmountOfLine(line.value));
        assert P.Amounts(collected + [line.value]) == P.Amounts(collected) + [P.AmountOfLine(line.value)];
        base := base + C.Subtotal(P.AmountOfLine(line.value));
        collected := collected + [line.value];
        k := k + 1;
      }
      assert ids[..k] == ids;
      lines := Ok(collected);
    }

    method EstimateConstruction(tenant: string, project: string, role: string, ids: seq<nat>, scenarioOk: bool, factor: int)
        returns (r: Result<P.Estimate, P.PricingError>)
      modifies this
      ensures r == P.EstimateOf(old(View()), tenant, project, role, ids, scenarioOk, factor)
      ensures View() == if r.Err? then old(View()) else P.Record(old(View()), r.value)
    {
      if !P.IsOwner(role) {
        return Err(P.ApproverRequired);
      }
      if !scenarioOk {
        return Err(P.ScenarioInvalid);
      }
      if factor <= 0 || factor > 50_000 {
        return Err(P.FactorInvalid);
      }
      if ids == [] {
        return Err(P.MappingsRequired);
      }
      if exists id | id in ids :: !P.Mine(View(), tenant, project, id) {
        return Err(P.MappingNotFound);
      }
      var lines, base := CollectLines(tenant, ids);
      if lines.Err? {
        return Err(lines.error);
      }
      var estimate := P.Estimate(tenant, project, ids, factor, lines.value, C.WithFactor(base, factor));
      estimates := estimates[nextId := estimate];
      nextId := nextId + 1;
      return Ok(estimate);
    }
  }

  /** The first error of the lines is the answer, whatever ids follow. */
  lemma {:induction false} LaterLines(db: P.Db, tenant: string, ids: seq<nat>, k: nat, e: P.PricingError)
    requires k <= |ids| && forall id | id in ids :: id in db.mappings
    requires P.LinesOf(db, tenant, ids[..k]) == Err(e)
    ensures P.LinesOf(db, tenant, ids) == Err(e)
    decreases |ids|
  {
    if k < |ids| {
      var init := ids[..|ids| - 1];
      assert init[..k] == ids[..k];
      LaterLines(db, tenant, init, k, e);
    } else {
      assert ids[..k] == ids;
    }
  }
}
