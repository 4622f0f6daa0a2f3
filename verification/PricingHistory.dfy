/** Where the numbers of an estimate come from: every price is one that was submitted, every quantity one that was
    mapped, and every approval a call by an owner, all before the estimate was made. */
module PricingHistory {
  import LineReader
  import Text
  import opened PricingAuthority
  import opened PricingTheorems
  import opened Wrappers

  lemma {:induction false} RunSnoc(db: Db, events: seq<Event>, e: Event)
    ensures Run(db, events + [e]) == Apply(Run(db, events), e)
    decreases |events|
  {
    if events == [] {
      assert (events + [e])[1..] == [];
    } else {
      assert (events + [e])[0] == events[0] && (events + [e])[1..] == events[1..] + [e];
      RunSnoc(Apply(db, events[0]), events[1..], e);
    }
  }

  function At(events: seq<Event>, k: nat): Db
    requires k <= |events|
  {
    Run(EMPTY, events[..k])
  }

  lemma {:induction false} LastStep(events: seq<Event>)
    requires events != []
    ensures At(events, |events|) == Apply(At(events, |events| - 1), events[|events| - 1])
  {
    RunSnoc(EMPTY, events[..|events| - 1], events[|events| - 1]);
    assert events[..|events| - 1] + [events[|events| - 1]] == events[..|events|];
  }

  lemma PrefixOfPrefix(events: seq<Event>, n: nat, k: nat)
    requires k <= n <= |events|
    ensures At(events[..n], k) == At(events, k)
  {
    assert events[..n][..k] == events[..k];
  }

  // ----- owners

  /** A letter of a word in lower case, in either case. */
  predicate EitherCase(c: char, lower: char)
    requires 'a' <= lower <= 'z'
  {
    c == lower || c == lower - 'a' + 'A'
  }

  predicate SpellsOwner(w: string) {
    && |w| == 5 && EitherCase(w[0], 'o') && EitherCase(w[1], 'w') && EitherCase(w[2], 'n') && EitherCase(w[3], 'e')
    && EitherCase(w[4], 'r')
  }

  lemma {:induction false} LowerAt(s: string)
    ensures |LineReader.Lower(s)| == |s|
    ensures forall i | 0 <= i < |s| ::
      LineReader.Lower(s)[i] == if 'A' <= s[i] <= 'Z' then s[i] - 'A' + 'a' else s[i]
  {
    if s != [] {
      LowerAt(s[1..]);
    }
  }

  lemma {:induction false} LowerIsOwner(w: string)
    ensures LineReader.Lower(w) == "owner" <==> SpellsOwner(w)
  {
    LowerAt(w);
    if SpellsOwner(w) {
      assert LineReader.Lower(w) == "owner";
    }
  }

  lemma OwnerIsStripped(w: string)
    requires SpellsOwner(w)
    ensures Text.Strip(w) == w
  {
    assert !Text.IsSpace(w[0]) && !Text.IsSpace(w[4]);
  }

  /** An owner is a role that spells the word, in any case, with any whitespace around it. */
  lemma {:induction false} OwnersAre(role: string)
    ensures IsOwner(role) <==>
      exists l, w, r :: role == l + w + r && Text.Blank(l) && Text.Blank(r) && SpellsOwner(w)
  {
    LowerIsOwner(Text.Strip(role));
    if IsOwner(role) {
      var l := Text.LStripSplits(role);
      var r := Text.RStripSplits(Text.LStrip(role));
      assert role == l + Text.Strip(role) + r;
    }
    if l, w, r :| role == l + w + r && Text.Blank(l) && Text.Blank(r) && SpellsOwner(w) {
      Text.StripIgnoresPadding(l, w, r);
      OwnerIsStripped(w);
      LowerIsOwner(w);
    }
  }

  // ----- what each row was made from

  /** A text as a column of 32 characters holds it. */
  predicate Holds32(column: string, text: string) {
    if |text| <= 32 then column == text else column == text[..32]
  }

  predicate Quoted(e: Event, n: nat, i: Item) {
    && e.Submit? && n < |e.snapshot.items| && i.tenant == e.tenant
    && var q := e.snapshot.items[n];
       && q.role == Some(i.role) && Holds32(i.unit, q.unit)
       && (i.cents.Some? <==> q.cents.Some?) && (i.cents.Some? ==> q.cents.value == i.cents.value)
  }

  predicate Sourced(e: Event, s: Snapshot) {
    && e.Submit? && s.tenant == e.tenant && e.snapshot.source == Some(s.source) && e.snapshot.evidenceOk
    && None !in e.snapshot.roles && (forall r | Some(r) in e.snapshot.roles :: r in s.roles)
    && (forall r | r in s.roles :: Some(r) in e.snapshot.roles)
  }

  /** The k-th call submitted the item's snapshot, with this item as its n-th. */
  predicate SubmittedAt(events: seq<Event>, k: nat, n: nat, id: nat, i: Item) {
    && k < |events| && Quoted(events[k], n, i)
    && i.snapshot == At(events, k).nextId && id == i.snapshot + n + 1
  }

  predicate Proposes(e: Event, m: Mapping) {
    && e.Map? && e.tenant == m.tenant && e.project == m.project && e.mapping.item == m.item
    && e.mapping.quantity == m.quantity && e.mapping.provenance == m.provenance && Holds32(m.unit, e.mapping.unit)
  }

  /** The k-th call proposed the mapping. */
  predicate MappedAt(events: seq<Event>, k: nat, id: nat, m: Mapping) {
    k < |events| && id == At(events, k).nextId && Proposes(events[k], m)
  }

  /** The k-th call, an owner's, approved the mapping. */
  predicate MappingApprovedAt(events: seq<Event>, k: nat, id: nat, m: Mapping) {
    && k < |events| && events[k].ApproveMap? && events[k].id == id && IsOwner(events[k].role)
    && events[k].tenant == m.tenant && events[k].project == m.project
    && events[k].actor == m.approvedBy && id in At(events, k).mappings
  }

  /** The k-th call, an owner's, approved the snapshot. */
  predicate SnapshotApprovedAt(events: seq<Event>, k: nat, id: nat, s: Snapshot) {
    && k < |events| && events[k].ApproveSource? && events[k].id == id && IsOwner(events[k].role)
    && events[k].tenant == s.tenant && id in At(events, k).snapshots
  }

  // ----- a submission, item by item

  lemma {:induction false} ItemsAreQuoted(tenant: string, snapshot: nat, roles: set<Role>, requests: seq<ItemRequest>,
                                          n: nat)
    requires forall i | i in requests :: ItemError(i, roles).None?
    ensures var items := NewItems(tenant, snapshot, roles, requests);
      && (snapshot + n + 1 in items <==> n < |requests|)
      && (n < |requests| ==>
            var i := items[snapshot + n + 1];
            && ItemOf(i, tenant, snapshot) && requests[n].role == Some(i.role) && Holds32(i.unit, requests[n].unit)
            && (i.cents.Some? <==> requests[n].cents.Some?)
            && (i.cents.Some? ==> requests[n].cents.value == i.cents.value))
    decreases |requests|
  {
    if requests != [] {
      var last := |requests| - 1;
      assert forall i | i in requests[..last] :: i in requests;
      assert requests[last] in requests && ItemError(requests[last], roles).None?;
      ItemsAreQuoted(tenant, snapshot, roles, requests[..last], n);
    }
  }

  lemma {:induction false} NewItemIsQuoted(db: Db, e: Event, id: nat) returns (n: nat)
    requires ItemsOk(db) && id !in db.items && id in Apply(db, e).items
    ensures Quoted(e, n, Apply(db, e).items[id])
    ensures Apply(db, e).items[id].snapshot == db.nextId && id == db.nextId + n + 1
  {
    var r := e.snapshot;
    var items := NewItems(e.tenant, db.nextId, Known(r.roles), r.items);
    assert id in items;
    n := id - db.nextId - 1;
    ItemsAreQuoted(e.tenant, db.nextId, Known(r.roles), r.items, n);
  }

  lemma RowsAt(events: seq<Event>, k: nat)
    requires k <= |events|
    ensures RowsOk(At(events, k))
  {
    RunKeeps(EMPTY, events[..k]);
  }

  lemma QuotedStays(db: Db, e: Event, id: nat, q: Event, n: nat)
    requires ItemsOk(db) && id in db.items && Quoted(q, n, db.items[id])
    ensures id in Apply(db, e).items && Apply(db, e).items[id].snapshot == db.items[id].snapshot
    ensures Quoted(q, n, Apply(db, e).items[id])
  {
    StepItemsLater(db, e);
  }

  lemma SourcedStays(db: Db, e: Event, id: nat, q: Event)
    requires SnapshotsOk(db) && id in db.snapshots && Sourced(q, db.snapshots[id])
    ensures id in Apply(db, e).snapshots && Sourced(q, Apply(db, e).snapshots[id])
  {
    SourceStays(db, e, id);
  }

  /** Every item of a reachable state has the price, the unit and the role of the submission it came with, and its
      snapshot has the source and exactly the roles of that submission. */
  lemma {:induction false} ItemHasItsQuote(events: seq<Event>, id: nat) returns (k: nat, n: nat)
    requires id in At(events, |events|).items
    ensures var db := At(events, |events|);
      && SubmittedAt(events, k, n, id, db.items[id])
      && db.items[id].snapshot in db.snapshots && Sourced(events[k], db.snapshots[db.items[id].snapshot])
    decreases |events|
  {
    var last := |events| - 1;
    LastStep(events);
    var db := At(events, last);
    RowsAt(events, last);
    if id in db.items {
      PrefixOfPrefix(events, last, last);
      k, n := ItemHasItsQuote(events[..last], id);
      PrefixOfPrefix(events, last, k);
      QuotedStays(db, events[last], id, events[k], n);
      SourcedStays(db, events[last], db.items[id].snapshot, events[k]);
    } else {
      k := last;
      n := NewItemIsQuoted(db, events[last], id);
      NewSnapshotIsSourced(db, events[last], db.nextId);
    }
  }

  lemma SourceStays(db: Db, e: Event, id: nat)
    requires id in db.snapshots && (e.Submit? ==> id != db.nextId)
    ensures id in Apply(db, e).snapshots
    ensures var s, s' := db.snapshots[id], Apply(db, e).snapshots[id];
      s'.tenant == s.tenant && s'.source == s.source && s'.roles == s.roles
  {
  }

  lemma NewSnapshotIsSourced(db: Db, e: Event, id: nat)
    requires id !in db.snapshots && id in Apply(db, e).snapshots
    ensures id == db.nextId && Sourced(e, Apply(db, e).snapshots[id])
  {
    var roles := e.snapshot.roles;
    assert forall r | Some(r) in roles :: r in Known(roles);
    assert forall r | r in Known(roles) :: Some(r) in roles;
  }

  lemma {:induction false} MappingHasItsRequest(events: seq<Event>, id: nat) returns (k: nat)
    requires id in At(events, |events|).mappings
    ensures MappedAt(events, k, id, At(events, |events|).mappings[id])
    decreases |events|
  {
    var last := |events| - 1;
    LastStep(events);
    var db := At(events, last);
    RowsAt(events, last);
    if id in db.mappings {
      PrefixOfPrefix(events, last, last);
      k := MappingHasItsRequest(events[..last], id);
      PrefixOfPrefix(events, last, k);
      StepMappingsLater(db, events[last]);
      assert MappingLater(db.mappings[id], At(events, |events|).mappings[id]);
    } else {
      k := last;
      NewMapping(db, events[last], id);
    }
  }

  lemma NewMapping(db: Db, e: Event, id: nat)
    requires id !in db.mappings && id in Apply(db, e).mappings
    ensures id == db.nextId && Proposes(e, Apply(db, e).mappings[id])
  {
  }

  lemma {:induction false} MappingHasItsApproval(events: seq<Event>, id: nat) returns (k: nat)
    requires id in At(events, |events|).mappings && At(events, |events|).mappings[id].approved
    ensures MappingApprovedAt(events, k, id, At(events, |events|).mappings[id])
    decreases |events|
  {
    var last := |events| - 1;
    LastStep(events);
    var db, e := At(events, last), events[last];
    RowsAt(events, last);
    if id in db.mappings && db.mappings[id] == Apply(db, e).mappings[id] {
      PrefixOfPrefix(events, last, last);
      k := MappingHasItsApproval(events[..last], id);
      PrefixOfPrefix(events, last, k);
    } else {
      k := last;
      ChangedMapping(db, e, id);
    }
  }

  lemma ChangedMapping(db: Db, e: Event, id: nat)
    requires MappingsOk(db) && id in Apply(db, e).mappings && Apply(db, e).mappings[id].approved
    requires id in db.mappings ==> db.mappings[id] != Apply(db, e).mappings[id]
    ensures id in db.mappings && e.ApproveMap? && e.id == id && IsOwner(e.role)
    ensures var m := Apply(db, e).mappings[id];
      e.tenant == m.tenant && e.project == m.project && e.actor == m.approvedBy
  {
  }

  lemma {:induction false} SnapshotHasItsApproval(events: seq<Event>, id: nat) returns (k: nat)
    requires id in At(events, |events|).snapshots && At(events, |events|).snapshots[id].valid
    ensures SnapshotApprovedAt(events, k, id, At(events, |events|).snapshots[id])
    decreases |events|
  {
    var last := |events| - 1;
    LastStep(events);
    var db, e := At(events, last), events[last];
    if id in db.snapshots && db.snapshots[id] == Apply(db, e).snapshots[id] {
      PrefixOfPrefix(events, last, last);
      k := SnapshotHasItsApproval(events[..last], id);
      PrefixOfPrefix(events, last, k);
    } else {
      k := last;
    }
  }

  // ----- theorems

  predicate Asks(e: Event, x: Estimate) {
    && e.Price? && e.tenant == x.tenant && e.project == x.project && e.ids == x.ids && e.factor == x.factor
    && IsOwner(e.role) && e.scenarioOk && 0 < x.factor <= 50_000
  }

  /** The p-th call asked for this estimate. */
  predicate AskedAt(events: seq<Event>, p: nat, id: nat, x: Estimate) {
    p < |events| && id == At(events, p).nextId && Asks(events[p], x)
  }

  lemma {:induction false} EstimateHasItsCall(events: seq<Event>, id: nat) returns (p: nat)
    requires id in At(events, |events|).estimates
    ensures AskedAt(events, p, id, At(events, |events|).estimates[id])
    ensures EstimateOk(At(events, p), At(events, |events|).estimates[id])
    decreases |events|
  {
    var last := |events| - 1;
    LastStep(events);
    var db := At(events, last);
    RunKeeps(EMPTY, events[..last]);
    StepEstimates(db, events[last], id);
    if id in db.estimates {
      PrefixOfPrefix(events, last, last);
      p := EstimateHasItsCall(events[..last], id);
      PrefixOfPrefix(events, last, p);
    } else {
      p := last;
      NewEstimate(db, events[last], id);
    }
  }

  lemma NewEstimate(db: Db, e: Event, id: nat)
    requires id !in db.estimates && id in Apply(db, e).estimates
    ensures id == db.nextId && Asks(e, Apply(db, e).estimates[id])
  {
  }

  /** The calls that a line rests on: the submission of its price, the proposal of its quantity, and an owner's
      approval of each. */
  datatype Trail = Trail(submit: nat, n: nat, approveSource: nat, propose: nat, approveMapping: nat)

  predicate Rests(events: seq<Event>, p: nat, tenant: string, project: string, line: Line, t: Trail) {
    && t.submit < p <= |events| && t.approveSource < p && t.propose < p && t.approveMapping < p
    && var submit, source, propose, approve :=
         events[t.submit], events[t.approveSource], events[t.propose], events[t.approveMapping];
       && submit.Submit? && t.n < |submit.snapshot.items| && submit.tenant == tenant
       && submit.snapshot.source == Some(SupplierQuote) && submit.snapshot.items[t.n].role == Some(MarketQuote)
       && submit.snapshot.items[t.n].cents == Some(line.cents as int) && Holds32(line.unit, submit.snapshot.items[t.n].unit)
       && line.snapshot == At(events, t.submit).nextId && line.item == line.snapshot + t.n + 1
       && source.ApproveSource? && source.tenant == tenant && source.id == line.snapshot && IsOwner(source.role)
       && propose.Map? && propose.tenant == tenant && propose.project == project
       && propose.mapping.item == line.item && propose.mapping.quantity == line.quantity
       && Holds32(line.unit, propose.mapping.unit) && line.mapping == At(events, t.propose).nextId
       && approve.ApproveMap? && approve.tenant == tenant && approve.project == project
       && approve.id == line.mapping && IsOwner(approve.role)
  }

  lemma {:induction false} LineRests(events: seq<Event>, tenant: string, project: string, line: Line) returns (t: Trail)
    requires Backed(At(events, |events|), tenant, project, line)
    ensures Rests(events, |events|, tenant, project, line, t)
  {
    var submit, n := ItemHasItsQuote(events, line.item);
    var source := SnapshotHasItsApproval(events, line.snapshot);
    var propose := MappingHasItsRequest(events, line.mapping);
    var approve := MappingHasItsApproval(events, line.mapping);
    t := Trail(submit, n, source, propose, approve);
  }

  /** Every estimate was asked for by an owner, and every price and quantity in it was submitted, proposed and
      approved by owners' calls before. */
  lemma {:induction false} EstimateHasItsHistory(events: seq<Event>, id: nat, k: nat) returns (p: nat, t: Trail)
    requires id in At(events, |events|).estimates && k < |At(events, |events|).estimates[id].lines|
    ensures var x := At(events, |events|).estimates[id];
      AskedAt(events, p, id, x) && Rests(events, p, x.tenant, x.project, x.lines[k], t)
  {
    var x := At(events, |events|).estimates[id];
    p := EstimateHasItsCall(events, id);
    PrefixOfPrefix(events, p, p);
    assert x.lines[k] in x.lines;
    t := LineRests(events[..p], x.tenant, x.project, x.lines[k]);
    PrefixOfPrefix(events, p, t.submit);
    PrefixOfPrefix(events, p, t.propose);
  }

  // ----- what a call that is accepted leaves, and what it takes to be accepted

  predicate GoodItem(q: ItemRequest, roles: seq<Option<Role>>) {
    q.role.Some? && q.role in roles && q.complete && q.unit != [] && (q.cents.Some? ==> q.cents.value >= 0)
  }

  predicate GoodSubmission(r: SnapshotRequest) {
    && r.source.Some? && r.source != Some(GlipHistorical) && r.evidenceOk && r.roles != []
    && (forall role | role in r.roles :: role.Some? && role.value in AllowedRoles(r.source.value))
    && forall q | q in r.items :: GoodItem(q, r.roles)
  }

  lemma {:induction false} ItemsErrorFinds(items: seq<ItemRequest>, roles: set<Role>)
    ensures ItemsError(items, roles).None? <==> forall q | q in items :: ItemError(q, roles).None?
  {
    if items != [] {
      ItemsErrorFinds(items[1..], roles);
      assert forall q :: q in items <==> q == items[0] || q in items[1..];
    }
  }

  lemma {:induction false} SubmitAsks(r: SnapshotRequest)
    ensures SnapshotError(r).None? <==> GoodSubmission(r)
  {
    var known := Known(r.roles);
    assert forall role | Some(role) in r.roles :: role in known;
    assert forall role | role in known :: Some(role) in r.roles;
    ItemsErrorFinds(r.items, known);
    if r.source.Some? && None !in r.roles {
      assert known <= AllowedRoles(r.source.value)
             <==> forall role | role in r.roles :: role.Some? && role.value in AllowedRoles(r.source.value);
      assert forall q | q in r.items :: ItemError(q, known).None? <==> GoodItem(q, r.roles);
    }
  }

  /** A submission is accepted exactly if its source, its roles and all its items are good; then it leaves a snapshot
      that is not approved and an item for each of its own, and changes nothing else. */
  lemma {:induction false} SubmitLeaves(db: Db, e: Event, n: nat)
    requires RowsOk(db) && e.Submit? && n < |e.snapshot.items|
    ensures !GoodSubmission(e.snapshot) ==> Apply(db, e) == db
    ensures GoodSubmission(e.snapshot) ==>
      var db' := Apply(db, e); var s := db.nextId; var id := s + n + 1;
      && s in db'.snapshots && Sourced(e, db'.snapshots[s]) && !db'.snapshots[s].valid
      && id in db'.items && Quoted(e, n, db'.items[id]) && db'.items[id].snapshot == s && !db'.items[id].approved
      && (forall k | k in db.snapshots :: k in db'.snapshots && db'.snapshots[k] == db.snapshots[k])
      && (forall k | k in db.items :: k in db'.items && db'.items[k] == db.items[k])
      && db'.mappings == db.mappings && db'.estimates == db.estimates
  {
    var r := e.snapshot;
    SubmitAsks(r);
    if GoodSubmission(r) {
      ItemsAreQuoted(e.tenant, db.nextId, Known(r.roles), r.items, n);
      NewSnapshotIsSourced(db, e, db.nextId);
    }
  }

  /** A snapshot is approved exactly for an owner, within his tenant, if it is a supplier quote with items; then it
      and all its items are approved, and nothing else changes. */
  lemma ApproveSourceLeaves(db: Db, e: Event)
    requires e.ApproveSource?
    ensures var db' := Apply(db, e);
      if IsOwner(e.role) && e.id in db.snapshots && db.snapshots[e.id].tenant == e.tenant
         && db.snapshots[e.id].source == SupplierQuote
         && exists i | i in db.items :: db.items[i].snapshot == e.id && db.items[i].tenant == e.tenant
      then
        && db'.snapshots == db.snapshots[e.id :=
             db.snapshots[e.id].(valid := true, authority := HumanApproved, approverRole := Some(e.role))]
        && db'.items.Keys == db.items.Keys && db'.mappings == db.mappings && db'.estimates == db.estimates
        && (forall i | i in db.items :: db'.items[i] ==
              if db.items[i].snapshot == e.id && db.items[i].tenant == e.tenant then db.items[i].(approved := true)
              else db.items[i])
      else db' == db
  {
  }

  /** A mapping is proposed exactly for an item of the tenant, in the unit of the item and with a provenance that may
      be priced. */
  lemma MapLeaves(db: Db, e: Event)
    requires ItemsOk(db) && e.Map?
    ensures var q := e.mapping; var db' := Apply(db, e);
      if q.item in db.items && db.items[q.item].tenant == e.tenant && q.unit == db.items[q.item].unit && q.unit != []
         && q.provenance != OtherProvenance && q.quantityOk && q.statusOk && q.complete
      then
        && db.nextId in db'.mappings && Proposes(e, db'.mappings[db.nextId]) && !db'.mappings[db.nextId].approved
        && db'.mappings == db.mappings[db.nextId := db'.mappings[db.nextId]]
        && db'.snapshots == db.snapshots && db'.items == db.items && db'.estimates == db.estimates
      else db' == db
  {
  }

  /** A mapping is approved exactly for an owner, within his tenant and project; only the approval is noted. */
  lemma ApproveMapLeaves(db: Db, e: Event)
    requires e.ApproveMap?
    ensures var db' := Apply(db, e);
      if IsOwner(e.role) && e.id in db.mappings
         && db.mappings[e.id].tenant == e.tenant && db.mappings[e.id].project == e.project
      then
        && db'.mappings == db.mappings[e.id :=
             db.mappings[e.id].(approved := true, approvedBy := e.actor, approverRole := Some(e.role))]
        && db'.snapshots == db.snapshots && db'.items == db.items && db'.estimates == db.estimates
      else db' == db
  {
  }

  /** A call for an estimate keeps the estimate it is answered with under a new id, for good; one that is refused
      changes nothing. */
  lemma {:induction false} PriceLeaves(before: seq<Event>, e: Event, after: seq<Event>)
    requires e.Price?
    ensures var db := Run(EMPTY, before); var db' := Apply(db, e);
      if Priced(db, e).Err? then db' == db
      else
        && db.nextId !in db.estimates && Asks(e, Priced(db, e).value)
        && db'.estimates == db.estimates[db.nextId := Priced(db, e).value]
        && db'.snapshots == db.snapshots && db'.items == db.items && db'.mappings == db.mappings
        && var late := Run(db', after);
        && db.nextId in late.estimates && late.estimates[db.nextId] == Priced(db, e).value
  {
    var db := Run(EMPTY, before);
    RunKeeps(EMPTY, before);
    if Priced(db, e).Ok? {
      StepInv(db, e);
      EstimateStays(Apply(db, e), after, db.nextId);
    }
  }

  lemma {:induction false} EstimateStays(db: Db, events: seq<Event>, id: nat)
    requires Inv(db) && id in db.estimates
    ensures id in Run(db, events).estimates && Run(db, events).estimates[id] == db.estimates[id]
    decreases |events|
  {
    if events != [] {
      StepInv(db, events[0]);
      EstimateKept(db, events[0], id);
      EstimateStays(Apply(db, events[0]), events[1..], id);
    }
  }

  lemma EstimateKept(db: Db, e: Event, id: nat)
    requires id in db.estimates && db.nextId !in db.estimates
    ensures id in Apply(db, e).estimates && Apply(db, e).estimates[id] == db.estimates[id]
  {
  }
}
