/** What holds over all runs of the pricing calls: only prices that an owner approved reach an estimate, and an
    estimate can be repeated. */
module PricingTheorems {
  import C = Construction
  import Text
  import opened PricingAuthority
  import opened Wrappers

  datatype Event =
    | Submit(tenant: string, snapshot: SnapshotRequest)
    | ApproveSource(tenant: string, role: string, id: nat)
    | Map(tenant: string, project: string, mapping: MappingRequest)
    | ApproveMap(tenant: string, project: string, actor: string, role: string, id: nat)
    | Price(tenant: string, project: string, role: string, ids: seq<nat>, scenarioOk: bool, factor: int)

  function Apply(db: Db, e: Event): Db {
    match e
    case Submit(tenant, r) => if SnapshotError(r).Some? then db else CreateSnapshot(db, tenant, r)
    case ApproveSource(tenant, role, id) =>
      if ApproveSnapshotError(db, tenant, role, id).Some? then db else ApproveSnapshot(db, tenant, role, id)
    case Map(tenant, project, r) => if MappingError(db, tenant, r).Some? then db else CreateMapping(db, tenant, project, r)
    case ApproveMap(tenant, project, actor, role, id) =>
      if ApproveMappingError(db, tenant, project, role, id).Some? then db else ApproveMapping(db, actor, role, id)
    case Price(tenant, project, role, ids, scenarioOk, factor) =>
      var estimate := EstimateOf(db, tenant, project, role, ids, scenarioOk, factor);
      if estimate.Err? then db else Record(db, estimate.value)
  }

  function Run(db: Db, events: seq<Event>): Db
    decreases |events|
  {
    if events == [] then db else Run(Apply(db, events[0]), events[1..])
  }

  // ----- what every state satisfies

  predicate SnapshotOk(s: Snapshot) {
    && s.roles <= AllowedRoles(s.source)
    && (s.valid <==> s.authority == HumanApproved) && s.authority != VerifiedByServer
    && (s.valid ==> s.source == SupplierQuote && s.approverRole.Some? && IsOwner(s.approverRole.value))
  }

  predicate ItemOk(db: Db, i: Item) {
    && i.snapshot in db.snapshots && db.snapshots[i.snapshot].tenant == i.tenant
    && i.role in db.snapshots[i.snapshot].roles && (i.approved <==> db.snapshots[i.snapshot].valid)
  }

  predicate MappingOk(db: Db, m: Mapping) {
    && m.item in db.items && db.items[m.item].tenant == m.tenant
    && m.provenance != OtherProvenance
    && (m.approved ==> m.approverRole.Some? && IsOwner(m.approverRole.value))
  }

  predicate SnapshotsOk(db: Db) {
    forall s | s in db.snapshots :: s < db.nextId && SnapshotOk(db.snapshots[s])
  }

  predicate ItemsOk(db: Db) {
    forall i | i in db.items :: i < db.nextId && ItemOk(db, db.items[i])
  }

  predicate MappingsOk(db: Db) {
    forall m | m in db.mappings :: m < db.nextId && MappingOk(db, db.mappings[m])
  }

  // ----- what no step takes away

  /** All rows are still there, with the same identity, price and quantity, and no approval is withdrawn. */
  ghost predicate Later(db: Db, db': Db) {
    SnapshotsLater(db, db') && ItemsLater(db, db') && MappingsLater(db, db')
  }

  predicate SnapshotsLater(db: Db, db': Db) {
    forall s | s in db.snapshots ::
      s in db'.snapshots && db'.snapshots[s].tenant == db.snapshots[s].tenant
      && db'.snapshots[s].source == db.snapshots[s].source && (db.snapshots[s].valid ==> db'.snapshots[s].valid)
  }

  predicate ItemsLater(db: Db, db': Db) {
    forall i | i in db.items ::
      i in db'.items && db'.items[i] == db.items[i].(approved := db'.items[i].approved)
      && (db.items[i].approved ==> db'.items[i].approved)
  }

  predicate MappingsLater(db: Db, db': Db) {
    forall m | m in db.mappings :: m in db'.mappings && MappingLater(db.mappings[m], db'.mappings[m])
  }

  predicate MappingLater(m: Mapping, m': Mapping) {
    && (m.approved ==> m'.approved)
    && m' == m.(approved := m'.approved, approvedBy := m'.approvedBy, approverRole := m'.approverRole)
  }

  /** A line that only an owner's approvals put there. */
  predicate Backed(db: Db, tenant: string, project: string, line: Line) {
    && Mine(db, tenant, project, line.mapping) && line.item in db.items && line.snapshot in db.snapshots
    && var m, i, s := db.mappings[line.mapping], db.items[line.item], db.snapshots[line.snapshot];
       && m.approved && m.approverRole.Some? && IsOwner(m.approverRole.value)
       && m.item == line.item && m.quantity == line.quantity && m.unit == line.unit && m.provenance == line.provenance
       && m.provenance != OtherProvenance
       && i.tenant == tenant && i.snapshot == line.snapshot && i.unit == m.unit && i.cents == Some(line.cents)
       && line.cents > 0 && i.approved && i.role == line.role == MarketQuote
       && s.tenant == tenant && s.source == line.source == SupplierQuote && s.valid && s.authority == HumanApproved
       && s.approverRole.Some? && IsOwner(s.approverRole.value)
  }

  predicate EstimateOk(db: Db, e: Estimate) {
    && |e.lines| == |e.ids| >= 1 && (forall k | 0 <= k < |e.ids| :: e.lines[k].mapping == e.ids[k])
    && (forall line | line in e.lines :: Backed(db, e.tenant, e.project, line))
    && e.total == C.Total(Amounts(e.lines), e.factor)
  }

  predicate EstimatesOk(db: Db) {
    forall e | e in db.estimates :: e < db.nextId && EstimateOk(db, db.estimates[e])
  }

  predicate RowsOk(db: Db) {
    SnapshotsOk(db) && ItemsOk(db) && MappingsOk(db)
  }

  predicate Inv(db: Db) {
    RowsOk(db) && EstimatesOk(db)
  }

  // ----- one step

  lemma StepSnapshots(db: Db, e: Event)
    requires SnapshotsOk(db)
    ensures SnapshotsOk(Apply(db, e))
  {
  }

  lemma StepItems(db: Db, e: Event)
    requires SnapshotsOk(db) && ItemsOk(db)
    ensures ItemsOk(Apply(db, e))
  {
  }

  lemma StepMappings(db: Db, e: Event)
    requires MappingsOk(db) && ItemsOk(db)
    ensures MappingsOk(Apply(db, e))
  {
  }

  lemma StepSnapshotsLater(db: Db, e: Event)
    requires SnapshotsOk(db)
    ensures SnapshotsLater(db, Apply(db, e))
  {
  }

  lemma StepItemsLater(db: Db, e: Event)
    requires ItemsOk(db)
    ensures ItemsLater(db, Apply(db, e))
  {
  }

  lemma StepMappingsLater(db: Db, e: Event)
    requires MappingsOk(db)
    ensures MappingsLater(db, Apply(db, e))
  {
    forall m | m in db.mappings
      ensures m in Apply(db, e).mappings && MappingLater(db.mappings[m], Apply(db, e).mappings[m])
    {
    }
  }

  /** What the guards of the loop let through. */
  lemma LineIsBacked(db: Db, tenant: string, project: string, id: nat)
    requires RowsOk(db) && Mine(db, tenant, project, id)
    requires LineOf(db, tenant, id).Ok?
    ensures Backed(db, tenant, project, LineOf(db, tenant, id).value)
  {
    var m := db.mappings[id];
    var i := db.items[m.item];
    assert SnapshotOk(db.snapshots[i.snapshot]) && ItemOk(db, i) && MappingOk(db, m);
    assert i.role in AllowedRoles(SupplierQuote);
  }

  predicate LinesOfMine(db: Db, tenant: string, project: string, ids: seq<nat>) {
    (forall id | id in ids :: Mine(db, tenant, project, id)) && LinesOf(db, tenant, ids).Ok?
  }

  lemma {:induction false} LinesAreBacked(db: Db, tenant: string, project: string, ids: seq<nat>)
    requires RowsOk(db) && LinesOfMine(db, tenant, project, ids)
    ensures var lines := LinesOf(db, tenant, ids).value;
      && |lines| == |ids| && (forall k | 0 <= k < |ids| :: lines[k].mapping == ids[k])
      && forall line | line in lines :: Backed(db, tenant, project, line)
    decreases |ids|
  {
    if ids != [] {
      LinesAreBacked(db, tenant, project, ids[..|ids| - 1]);
      LineIsBacked(db, tenant, project, ids[|ids| - 1]);
    }
  }

  lemma BackedLater(db: Db, db': Db, tenant: string, project: string, line: Line)
    requires Later(db, db') && RowsOk(db') && Backed(db, tenant, project, line)
    ensures Backed(db', tenant, project, line)
  {
    assert SnapshotOk(db'.snapshots[line.snapshot]) && MappingOk(db', db'.mappings[line.mapping]);
  }

  lemma EstimateLater(db: Db, db': Db, e: Estimate)
    requires Later(db, db') && RowsOk(db') && EstimateOk(db, e)
    ensures EstimateOk(db', e)
  {
    forall line | line in e.lines
      ensures Backed(db', e.tenant, e.project, line)
    {
      BackedLater(db, db', e.tenant, e.project, line);
    }
  }

  lemma NewEstimateOk(db: Db, e: Event)
    requires RowsOk(db) && e.Price?
    requires EstimateOf(db, e.tenant, e.project, e.role, e.ids, e.scenarioOk, e.factor).Ok?
    ensures EstimateOk(db, EstimateOf(db, e.tenant, e.project, e.role, e.ids, e.scenarioOk, e.factor).value)
  {
    LinesAreBacked(db, e.tenant, e.project, e.ids);
  }

  lemma StepLater(db: Db, e: Event)
    requires RowsOk(db)
    ensures Later(db, Apply(db, e))
  {
    StepSnapshotsLater(db, e);
    StepItemsLater(db, e);
    StepMappingsLater(db, e);
  }

  lemma StepRows(db: Db, e: Event)
    requires RowsOk(db)
    ensures RowsOk(Apply(db, e))
  {
    StepSnapshots(db, e);
    StepItems(db, e);
    StepMappings(db, e);
  }

  lemma StepEstimates(db: Db, e: Event, k: nat)
    requires Inv(db) && k in Apply(db, e).estimates
    ensures k < Apply(db, e).nextId
    ensures k !in db.estimates ==> EstimateOk(db, Apply(db, e).estimates[k])
    ensures k in db.estimates ==> Apply(db, e).estimates[k] == db.estimates[k] && EstimateOk(db, db.estimates[k])
  {
    if k !in db.estimates {
      NewEstimateOk(db, e);
    }
  }

  lemma StepInv(db: Db, e: Event)
    requires Inv(db)
    ensures Inv(Apply(db, e))
  {
    var db' := Apply(db, e);
    StepRows(db, e);
    StepLater(db, e);
    forall k | k in db'.estimates
      ensures k < db'.nextId && EstimateOk(db', db'.estimates[k])
    {
      StepEstimates(db, e, k);
      EstimateLater(db, db', db'.estimates[k]);
    }
  }

  lemma LaterTrans(a: Db, b: Db, c: Db)
    requires Later(a, b) && Later(b, c)
    ensures Later(a, c)
  {
  }

  lemma {:induction false} RunKeeps(db: Db, events: seq<Event>)
    requires Inv(db)
    ensures Inv(Run(db, events)) && Later(db, Run(db, events))
    decreases |events|
  {
    if events != [] {
      var next := Apply(db, events[0]);
      StepInv(db, events[0]);
      StepLater(db, events[0]);
      RunKeeps(next, events[1..]);
      LaterTrans(db, next, Run(next, events[1..]));
    }
  }

  // ----- theorems

  /** In every reachable state, every line of every estimate comes from a supplier quote with a positive price and
      a mapping of the same unit, both approved by an owner; and the total is that of the lines. */
  lemma {:induction false} EstimatesAreBacked(events: seq<Event>, k: nat)
    requires k in Run(EMPTY, events).estimates
    ensures EstimateOk(Run(EMPTY, events), Run(EMPTY, events).estimates[k])
  {
    RunKeeps(EMPTY, events);
  }

  /** The guards of the loop let every backed line through again, if the approver has a name. */
  lemma BackedLineOf(db: Db, tenant: string, project: string, line: Line)
    requires Backed(db, tenant, project, line)
    ensures LineOf(db, tenant, line.mapping) ==
      if db.mappings[line.mapping].approvedBy == [] then Err(MappingNotApproved) else Ok(line)
  {
  }

  /** The approver of every mapping has a name. */
  predicate Named(db: Db, ids: seq<nat>) {
    forall id | id in ids :: id in db.mappings && db.mappings[id].approvedBy != []
  }

  lemma {:induction false} LinesFromBacked(db: Db, tenant: string, project: string, ids: seq<nat>, lines: seq<Line>)
    requires |lines| == |ids| && forall k | 0 <= k < |ids| :: lines[k].mapping == ids[k]
    requires forall line | line in lines :: Backed(db, tenant, project, line)
    ensures forall id | id in ids :: id in db.mappings && Mine(db, tenant, project, id)
    ensures Named(db, ids) ==> LinesOf(db, tenant, ids) == Ok(lines)
    ensures !Named(db, ids) ==> LinesOf(db, tenant, ids).Err?
    decreases |ids|
  {
    if ids != [] {
      var n := |ids| - 1;
      assert lines == lines[..n] + [lines[n]] && ids == ids[..n] + [ids[n]];
      assert lines[n] in lines;
      LinesFromBacked(db, tenant, project, ids[..n], lines[..n]);
      BackedLineOf(db, tenant, project, lines[n]);
    }
  }

  function Priced(db: Db, e: Event): Result<Estimate, PricingError>
    requires e.Price?
  {
    EstimateOf(db, e.tenant, e.project, e.role, e.ids, e.scenarioOk, e.factor)
  }

  lemma LinesStayBacked(db: Db, db': Db, tenant: string, project: string, lines: seq<Line>)
    requires Later(db, db') && RowsOk(db') && forall line | line in lines :: Backed(db, tenant, project, line)
    ensures forall line | line in lines :: Backed(db', tenant, project, line)
  {
    forall line | line in lines
      ensures Backed(db', tenant, project, line)
    {
      BackedLater(db, db', tenant, project, line);
    }
  }

  /** What an estimate asks of the request alone. */
  predicate Admissible(e: Event)
    requires e.Price?
  {
    IsOwner(e.role) && e.scenarioOk && 0 < e.factor <= 50_000 && e.ids != []
  }

  predicate AllMine(db: Db, e: Event)
    requires e.Price?
  {
    forall id | id in e.ids :: id in db.mappings && Mine(db, e.tenant, e.project, id)
  }

  lemma {:induction false} PricedByLines(db: Db, e: Event, lines: Result<seq<Line>, PricingError>)
    requires e.Price? && Admissible(e) && AllMine(db, e) && LinesOf(db, e.tenant, e.ids) == lines
    ensures Priced(db, e) == if lines.Err? then Err(lines.error)
      else Ok(Estimate(e.tenant, e.project, e.ids, e.factor, lines.value, C.Total(Amounts(lines.value), e.factor)))
  {
  }

  lemma PricedAsks(db: Db, e: Event)
    requires e.Price? && Priced(db, e).Ok?
    ensures Admissible(e) && AllMine(db, e) && LinesOfMine(db, e.tenant, e.project, e.ids)
  {
  }

  lemma PricedLater(db: Db, db': Db, e: Event)
    requires e.Price? && RowsOk(db) && RowsOk(db') && Later(db, db') && Priced(db, e).Ok?
    ensures if Named(db', e.ids) then Priced(db', e) == Priced(db, e) else Priced(db', e).Err?
  {
    PricedAsks(db, e);
    var lines := LinesOf(db, e.tenant, e.ids).value;
    LinesAreBacked(db, e.tenant, e.project, e.ids);
    LinesStayBacked(db, db', e.tenant, e.project, lines);
    LinesFromBacked(db', e.tenant, e.project, e.ids, lines);
    PricedByLines(db, e, Ok(lines));
    PricedByLines(db', e, LinesOf(db', e.tenant, e.ids));
  }

  /** An estimate that succeeded can be repeated in any later state with the same lines and the same total,
      exactly when no approval with an empty actor name has come over one of its mappings. */
  lemma {:induction false} EstimateRepeats(before: seq<Event>, after: seq<Event>, e: Event)
    requires e.Price? && Priced(Run(EMPTY, before), e).Ok?
    ensures var db := Run(EMPTY, before); var db' := Run(db, after);
      if Named(db', e.ids) then Priced(db', e) == Priced(db, e) else Priced(db', e).Err?
  {
    var db := Run(EMPTY, before);
    RunKeeps(EMPTY, before);
    RunKeeps(db, after);
    PricedLater(db, Run(db, after), e);
  }

  lemma NameStays(db: Db, e: Event, ids: seq<nat>)
    requires MappingsOk(db) && Named(db, ids) && (e.ApproveMap? ==> e.actor != [])
    ensures Named(Apply(db, e), ids)
  {
    StepMappingsLater(db, e);
  }

  /** As long as every approver has a name, every estimate can be repeated. */
  lemma {:induction false} NamesStay(db: Db, events: seq<Event>, ids: seq<nat>)
    requires RowsOk(db) && Named(db, ids)
    requires forall e | e in events && e.ApproveMap? :: e.actor != []
    ensures Named(Run(db, events), ids)
    decreases |events|
  {
    if events != [] {
      assert events[0] in events;
      StepRows(db, events[0]);
      NameStays(db, events[0], ids);
      NamesStay(Apply(db, events[0]), events[1..], ids);
    }
  }

  lemma {:induction false} LinesAreNamed(db: Db, tenant: string, project: string, ids: seq<nat>)
    requires LinesOfMine(db, tenant, project, ids)
    ensures Named(db, ids)
    decreases |ids|
  {
    if ids != [] {
      LinesAreNamed(db, tenant, project, ids[..|ids| - 1]);
      assert ids == ids[..|ids| - 1] + [ids[|ids| - 1]];
    }
  }

  /** Whatever calls come after it, an estimate that succeeded can be repeated with the same lines and the same
      total, as long as every approval has an actor with a name. */
  lemma {:induction false} NamedEstimateRepeats(before: seq<Event>, after: seq<Event>, e: Event)
    requires e.Price? && Priced(Run(EMPTY, before), e).Ok?
    requires forall a | a in after && a.ApproveMap? :: a.actor != []
    ensures Priced(Run(Run(EMPTY, before), after), e) == Priced(Run(EMPTY, before), e)
  {
    var db := Run(EMPTY, before);
    RunKeeps(EMPTY, before);
    PricedAsks(db, e);
    LinesAreNamed(db, e.tenant, e.project, e.ids);
    NamesStay(db, after, e.ids);
    EstimateRepeats(before, after, e);
  }

  // ----- an approval without a name

  lemma OwnerIsOwner()
    ensures IsOwner("owner")
  {
    var w := "owner";
    assert !Text.IsSpace(w[0]) && !Text.IsSpace(w[4]);
    assert Text.LStrip(w) == w && Text.RStrip(w) == w;
    assert w[1..] == "wner" && "wner"[1..] == "ner" && "ner"[1..] == "er" && "er"[1..] == "r" && "r"[1..] == "";
  }

  /** One tenant with one project, one supplier quote and one owner. */
  datatype Office = Office(tenant: string, project: string, unit: string, role: string) {
    predicate Ok() {
      0 < |unit| <= 32 && IsOwner(role)
    }

    function Submission(): Event {
      Submit(tenant, SnapshotRequest(Some(SupplierQuote), [Some(MarketQuote)], true,
                                     [ItemRequest(Some(MarketQuote), true, unit, Some(250))]))
    }

    function Approval(actor: string): Event {
      ApproveMap(tenant, project, actor, role, 2)
    }

    function Events(actor: string): seq<Event> {
      [Submission(), ApproveSource(tenant, role, 0),
       Map(tenant, project, MappingRequest(1, CadMapped, true, 3_000_000, unit, true, true)), Approval(actor)]
    }

    function Submitted(): Db {
      Db(map[0 := Snapshot(tenant, SupplierQuote, {MarketQuote}, false, Unverified, None)],
         map[1 := Item(tenant, 0, unit, MarketQuote, Some(250), false)], map[], map[], 2)
    }

    function Authorized(): Db {
      Db(map[0 := Snapshot(tenant, SupplierQuote, {MarketQuote}, true, HumanApproved, Some(role))],
         map[1 := Item(tenant, 0, unit, MarketQuote, Some(250), true)], map[], map[], 2)
    }

    function Proposed(): Mapping {
      Mapping(tenant, project, 1, 3_000_000, unit, CadMapped, false, [], None)
    }

    function Mapped(m: Mapping): Db {
      Authorized().(mappings := map[2 := m], nextId := 3)
    }

    function Approved(actor: string): Mapping {
      Proposed().(approved := true, approvedBy := actor, approverRole := Some(role))
    }
  }

  lemma SubmittedStep(o: Office)
    requires o.Ok()
    ensures Apply(EMPTY, o.Submission()) == o.Submitted()
  {
    var r := o.Submission().snapshot;
    assert Known(r.roles) == {MarketQuote} by {
      assert Some(MarketQuote) in r.roles;
    }
    assert r.items[1..] == [] && r.items[..0] == [];
    assert ItemError(r.items[0], {MarketQuote}).None?;
    assert ItemsError(r.items, {MarketQuote}).None?;
    var added := NewItems(o.tenant, 0, {MarketQuote}, r.items);
    assert added == map[1 := Item(o.tenant, 0, o.unit, MarketQuote, Some(250), false)];
    var db := Apply(EMPTY, o.Submission());
    assert db.items == added;
    assert db.snapshots == o.Submitted().snapshots;
  }

  lemma AuthorizedStep(o: Office)
    requires o.Ok()
    ensures Apply(o.Submitted(), ApproveSource(o.tenant, o.role, 0)) == o.Authorized()
  {
    var before := o.Submitted();
    assert 1 in before.items && ItemOf(before.items[1], o.tenant, 0);
    assert ApproveSnapshotError(before, o.tenant, o.role, 0).None?;
    assert ApproveItems(before.items, o.tenant, 0) == o.Authorized().items;
    assert Apply(before, ApproveSource(o.tenant, o.role, 0)).snapshots == o.Authorized().snapshots;
  }

  lemma ApprovedStep(o: Office, m: Mapping, actor: string)
    requires o.Ok() && (m == o.Proposed() || m == o.Approved(m.approvedBy))
    ensures Apply(o.Mapped(m), o.Approval(actor)) == o.Mapped(o.Approved(actor))
  {
    assert Mine(o.Mapped(m), o.tenant, o.project, 2);
    assert Apply(o.Mapped(m), o.Approval(actor)).mappings == map[2 := o.Approved(actor)];
  }

  lemma ProposedStep(o: Office)
    requires o.Ok()
    ensures Apply(o.Authorized(), o.Events([])[2]) == o.Mapped(o.Proposed())
  {
    assert Apply(o.Authorized(), o.Events([])[2]).mappings == map[2 := o.Proposed()];
  }

  lemma {:induction false} RunFour(db: Db, a: Event, b: Event, c: Event, d: Event)
    ensures Run(db, [a, b, c, d]) == Apply(Apply(Apply(Apply(db, a), b), c), d)
  {
    assert [a, b, c, d][1..] == [b, c, d] && [b, c, d][1..] == [c, d] && [c, d][1..] == [d] && [d][1..] == [];
    var x := Apply(db, a);
    var y := Apply(x, b);
    assert Run(db, [a, b, c, d]) == Run(x, [b, c, d]);
    assert Run(x, [b, c, d]) == Run(y, [c, d]);
    assert Run(y, [c, d]) == Run(Apply(y, c), [d]);
  }

  lemma SetUpIsReached(o: Office, actor: string)
    requires o.Ok()
    ensures Run(EMPTY, o.Events(actor)) == o.Mapped(o.Approved(actor))
  {
    SubmittedStep(o);
    AuthorizedStep(o);
    ProposedStep(o);
    ApprovedStep(o, o.Proposed(), actor);
    var events := o.Events(actor);
    RunFour(EMPTY, events[0], events[1], events[2], events[3]);
  }

  lemma OneLine(o: Office, actor: string)
    requires o.Ok()
    ensures var r := EstimateOf(o.Mapped(o.Approved(actor)), o.tenant, o.project, o.role, [2], true, 10_000);
      if actor == [] then r == Err(MappingNotApproved) else r.Ok?
  {
    var db := o.Mapped(o.Approved(actor));
    assert Mine(db, o.tenant, o.project, 2);
    var ids: seq<nat> := [2];
    assert ids[..|ids| - 1] == [] && LinesOf(db, o.tenant, []) == Ok([]);
    if actor == [] {
      assert LineOf(db, o.tenant, 2) == Err(MappingNotApproved);
    } else {
      assert LineOf(db, o.tenant, 2).Ok?;
    }
  }

  /** An estimate that succeeds fails when repeated after its mapping was approved again by an owner without a
      name. */
  lemma RepeatCanFail(o: Office, actor: string)
    requires o.Ok() && actor != []
    ensures var db := Run(EMPTY, o.Events(actor)); var db' := Run(db, [o.Approval([])]);
      && EstimateOf(db, o.tenant, o.project, o.role, [2], true, 10_000).Ok?
      && EstimateOf(db', o.tenant, o.project, o.role, [2], true, 10_000) == Err(MappingNotApproved)
  {
    SetUpIsReached(o, actor);
    ApprovedStep(o, o.Approved(actor), []);
    assert [o.Approval([])][1..] == [];
    OneLine(o, actor);
    OneLine(o, []);
  }
}
