/** Who may put a price into an estimate: snapshots of price sources, quantity mappings, their approval by the
    owner, and the construction estimate made of them. Every call is one transaction. */
module PricingAuthority {
  import C = Construction
  import LineReader
  import Text
  import opened Wrappers

  // ----- sources and roles

  datatype Source =
    | SidraIbge | SinapiCaixa | SicroDnit | SindusconRegional | SupplierQuote | GlipHistorical | CauFeeReference

  datatype Role = UnitPrice | CompositionReference | Benchmark | FeeReference | RealizedCost | MarketQuote

  function AllowedRoles(source: Source): set<Role> {
    match source
    case SidraIbge => {Benchmark}
    case SinapiCaixa => {UnitPrice, CompositionReference}
    case SicroDnit => {UnitPrice, CompositionReference}
    case SindusconRegional => {Benchmark}
    case SupplierQuote => {MarketQuote}
    case GlipHistorical => {RealizedCost}
    case CauFeeReference => {FeeReference}
  }

  predicate DetailedCost(role: Role) {
    role in {UnitPrice, MarketQuote, RealizedCost}
  }

  predicate ServerVerified(source: Source) {
    source in {SidraIbge, SinapiCaixa, SicroDnit, SindusconRegional, CauFeeReference, GlipHistorical}
  }

  predicate ManuallyApprovable(source: Source) {
    source == SupplierQuote
  }

  /** `_require_financial_approver` */
  predicate IsOwner(role: string) {
    LineReader.Lower(Text.Strip(role)) == "owner"
  }

  // ----- rows; the roles of the approvers are kept for the record

  datatype Authority = Unverified | HumanApproved | VerifiedByServer

  datatype Snapshot = Snapshot(
    tenant: string, source: Source, roles: set<Role>, valid: bool, authority: Authority, approverRole: Option<string>)

  datatype Item = Item(tenant: string, snapshot: nat, unit: string, role: Role, cents: Option<nat>, approved: bool)

  datatype Provenance = AuthoritativeIfc | GeometryDerived | CadMapped | ManualApproved | OtherProvenance

  datatype Mapping = Mapping(
    tenant: string, project: string, item: nat, quantity: nat, unit: string, provenance: Provenance, approved: bool,
    approvedBy: string, approverRole: Option<string>)

  datatype Line = Line(
    mapping: nat, item: nat, snapshot: nat, source: Source, role: Role, quantity: nat, unit: string,
    provenance: Provenance, cents: nat)

  datatype Estimate = Estimate(
    tenant: string, project: string, ids: seq<nat>, factor: nat, lines: seq<Line>, total: int)

  datatype Db = Db(
    snapshots: map<nat, Snapshot>, items: map<nat, Item>, mappings: map<nat, Mapping>, estimates: map<nat, Estimate>,
    nextId: nat)

  const EMPTY := Db(map[], map[], map[], map[], 0)

  datatype PricingError =
    | ApproverRequired
    | SourceUnknown | RoleRequired | RoleUnknown | RoleNotAllowed | InternalOnly | EvidenceInvalid
    | ItemRoleNotInSnapshot | ItemIncomplete | ItemPriceInvalid
    | SnapshotNotFound | ServerVerificationRequired | ManualApprovalNotAllowed | ItemsRequired
    | ItemNotFound | ProvenanceNotEligible | QuantityInvalid | UnitRequired | UnitMismatch | MappingStatusRefused
    | MappingIncomplete | MappingNotFound
    | ScenarioInvalid | FactorInvalid | MappingsRequired | MappingNotApproved | SourceNotValid | SourceNotAuthorized
    | ItemNotApproved | RoleNotDetailedCost | AmountRequired | AmountNotPositive

  // ----- create_price_snapshot

  datatype ItemRequest = ItemRequest(role: Option<Role>, complete: bool, unit: string, cents: Option<int>)

  datatype SnapshotRequest = SnapshotRequest(
    source: Option<Source>, roles: seq<Option<Role>>, evidenceOk: bool, items: seq<ItemRequest>)

  function Known(roles: seq<Option<Role>>): set<Role> {
    set r | r in roles && r.Some? :: r.value
  }

  function ItemError(i: ItemRequest, roles: set<Role>): Option<PricingError> {
    if i.role.None? || i.role.value !in roles then Some(ItemRoleNotInSnapshot)
    else if !i.complete || i.unit == [] then Some(ItemIncomplete)
    else if i.cents.Some? && i.cents.value < 0 then Some(ItemPriceInvalid)
    else None
  }

  function ItemsError(items: seq<ItemRequest>, roles: set<Role>): (e: Option<PricingError>)
    ensures e.None? ==> forall i | i in items :: ItemError(i, roles).None?
  {
    if items == [] then None
    else if ItemError(items[0], roles).Some? then ItemError(items[0], roles)
    else ItemsError(items[1..], roles)
  }

  function SnapshotError(r: SnapshotRequest): Option<PricingError> {
    if r.source.None? then Some(SourceUnknown)
    else if r.roles == [] then Some(RoleRequired)
    else if None in r.roles then Some(RoleUnknown)
    else if !(Known(r.roles) <= AllowedRoles(r.source.value)) then Some(RoleNotAllowed)
    else if r.source.value == GlipHistorical then Some(InternalOnly)
    else if !r.evidenceOk then Some(EvidenceInvalid)
    else ItemsError(r.items, Known(r.roles))
  }

  function Truncated(s: string, n: nat): string {
    if |s| <= n then s else s[..n]
  }

  function NewItem(tenant: string, snapshot: nat, i: ItemRequest): Item
    requires i.role.Some? && (i.cents.Some? ==> i.cents.value >= 0)
  {
    var cents: Option<nat> := if i.cents.Some? then Some(i.cents.value) else None;
    Item(tenant, snapshot, Truncated(i.unit, 32), i.role.value, cents, false)
  }

  /** The items under a new snapshot, with the ids that follow its own. */
  function NewItems(tenant: string, snapshot: nat, roles: set<Role>, requests: seq<ItemRequest>): (m: map<nat, Item>)
    requires forall i | i in requests :: ItemError(i, roles).None?
    ensures forall k | k in m ::
      snapshot < k <= snapshot + |requests| && ItemOf(m[k], tenant, snapshot) && m[k].role in roles && !m[k].approved
  {
    if requests == [] then map[]
    else
      var last := requests[|requests| - 1];
      assert last in requests && ItemError(last, roles).None?;
      assert forall i | i in requests[..|requests| - 1] :: i in requests;
      NewItems(tenant, snapshot, roles, requests[..|requests| - 1])
        [snapshot + |requests| := NewItem(tenant, snapshot, last)]
  }

  function CreateSnapshot(db: Db, tenant: string, r: SnapshotRequest): Db
    requires SnapshotError(r).None?
  {
    var id := db.nextId;
    db.(snapshots := db.snapshots[id := Snapshot(tenant, r.source.value, Known(r.roles), false, Unverified, None)],
        items := db.items + NewItems(tenant, id, Known(r.roles), r.items),
        nextId := id + |r.items| + 1)
  }

  // ----- approve_price_snapshot

  predicate ItemOf(i: Item, tenant: string, snapshot: nat) {
    i.snapshot == snapshot && i.tenant == tenant
  }

  function ApproveSnapshotError(db: Db, tenant: string, role: string, id: nat): Option<PricingError> {
    if !IsOwner(role) then Some(ApproverRequired)
    else if id !in db.snapshots || db.snapshots[id].tenant != tenant then Some(SnapshotNotFound)
    else if ServerVerified(db.snapshots[id].source) then Some(ServerVerificationRequired)
    else if !ManuallyApprovable(db.snapshots[id].source) then Some(ManualApprovalNotAllowed)
    else if forall i | i in db.items :: !ItemOf(db.items[i], tenant, id) then Some(ItemsRequired)
    else None
  }

  function ApproveItems(items: map<nat, Item>, tenant: string, id: nat): map<nat, Item> {
    map i | i in items :: if ItemOf(items[i], tenant, id) then items[i].(approved := true) else items[i]
  }

  function ApproveSnapshot(db: Db, tenant: string, role: string, id: nat): Db
    requires id in db.snapshots
  {
    db.(snapshots := db.snapshots[id := db.snapshots[id].(valid := true, authority := HumanApproved, approverRole := Some(role))],
        items := ApproveItems(db.items, tenant, id))
  }

  // ----- create_quantity_mapping and approve_quantity_mapping

  datatype MappingRequest = MappingRequest(
    item: nat, provenance: Provenance, quantityOk: bool, quantity: nat, unit: string, statusOk: bool, complete: bool)

  function MappingError(db: Db, tenant: string, r: MappingRequest): Option<PricingError> {
    if r.item !in db.items || db.items[r.item].tenant != tenant then Some(ItemNotFound)
    else
      var item := db.items[r.item];
      if item.snapshot !in db.snapshots || db.snapshots[item.snapshot].tenant != tenant then Some(SnapshotNotFound)
      else if r.provenance == OtherProvenance then Some(ProvenanceNotEligible)
      else if !r.quantityOk then Some(QuantityInvalid)
      else if r.unit == [] then Some(UnitRequired)
      else if r.unit != item.unit then Some(UnitMismatch)
      else if !r.statusOk then Some(MappingStatusRefused)
      else if !r.complete then Some(MappingIncomplete)
      else None
  }

  function CreateMapping(db: Db, tenant: string, project: string, r: MappingRequest): Db {
    var m := Mapping(tenant, project, r.item, r.quantity, Truncated(r.unit, 32), r.provenance, false, [], None);
    db.(mappings := db.mappings[db.nextId := m], nextId := db.nextId + 1)
  }

  function ApproveMappingError(db: Db, tenant: string, project: string, role: string, id: nat): Option<PricingError> {
    if !IsOwner(role) then Some(ApproverRequired)
    else if !Mine(db, tenant, project, id) then Some(MappingNotFound)
    else None
  }

  predicate Mine(db: Db, tenant: string, project: string, id: nat) {
    id in db.mappings && db.mappings[id].tenant == tenant && db.mappings[id].project == project
  }

  function ApproveMapping(db: Db, actor: string, role: string, id: nat): Db
    requires id in db.mappings
  {
    db.(mappings := db.mappings[id := db.mappings[id].(approved := true, approvedBy := actor, approverRole := Some(role))])
  }

  // ----- estimate_construction

  /** One turn of the loop over the mapping ids. */
  function LineOf(db: Db, tenant: string, id: nat): Result<Line, PricingError>
    requires id in db.mappings
  {
    var m := db.mappings[id];
    if !m.approved || m.approvedBy == [] then Err(MappingNotApproved)
    else if m.provenance == OtherProvenance then Err(ProvenanceNotEligible)
    else if m.item !in db.items || db.items[m.item].tenant != tenant then Err(ItemNotFound)
    else
      var item := db.items[m.item];
      if item.snapshot !in db.snapshots || db.snapshots[item.snapshot].tenant != tenant then Err(SnapshotNotFound)
      else
        var snapshot := db.snapshots[item.snapshot];
        if !snapshot.valid then Err(SourceNotValid)
        else if snapshot.authority == Unverified then Err(SourceNotAuthorized)
        else if ServerVerified(snapshot.source) && snapshot.authority != VerifiedByServer then
          Err(ServerVerificationRequired)
        else if snapshot.authority == HumanApproved && !item.approved then Err(ItemNotApproved)
        else if !DetailedCost(item.role) then Err(RoleNotDetailedCost)
        else if item.cents.None? then Err(AmountRequired)
        else if item.cents.value <= 0 then Err(AmountNotPositive)
        else if item.unit != m.unit then Err(UnitMismatch)
        else Ok(Line(id, m.item, item.snapshot, snapshot.source, item.role, m.quantity, m.unit, m.provenance, item.cents.value))
  }

  /** The lines of all ids, or the first error. */
  function LinesOf(db: Db, tenant: string, ids: seq<nat>): Result<seq<Line>, PricingError>
    requires forall id | id in ids :: id in db.mappings
  {
    if ids == [] then Ok([])
    else
      var init := LinesOf(db, tenant, ids[..|ids| - 1]);
      if init.Err? then init
      else
        var last := LineOf(db, tenant, ids[|ids| - 1]);
        if last.Err? then Err(last.error) else Ok(init.value + [last.value])
  }

  function AmountOfLine(line: Line): C.Amount {
    C.AmountOf(line.quantity, line.cents)
  }

  function Amounts(lines: seq<Line>): (amounts: seq<C.Amount>)
    ensures |amounts| == |lines|
  {
    seq(|lines|, i requires 0 <= i < |lines| => AmountOfLine(lines[i]))
  }

  function EstimateOf(db: Db, tenant: string, project: string, role: string, ids: seq<nat>, scenarioOk: bool, factor: int)
      : Result<Estimate, PricingError> {
    if !IsOwner(role) then Err(ApproverRequired)
    else if !scenarioOk then Err(ScenarioInvalid)
    else if factor <= 0 || factor > 50_000 then Err(FactorInvalid)
    else if ids == [] then Err(MappingsRequired)
    else if exists id | id in ids :: !Mine(db, tenant, project, id) then Err(MappingNotFound)
    else
      var lines := LinesOf(db, tenant, ids);
      if lines.Err? then Err(lines.error)
      else Ok(Estimate(tenant, project, ids, factor, lines.value, C.Total(Amounts(lines.value), factor)))
  }

  function Record(db: Db, e: Estimate): Db {
    db.(estimates := db.estimates[db.nextId := e], nextId := db.nextId + 1)
  }
}
