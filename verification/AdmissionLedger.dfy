/**
  The admission ledger (live_mutation_admission.py): which reservation holds the capacity, which of
  its ten cases ran, and which cluster resources it may have created.
 */
module AdmissionLedger {
  import opened Prelude
  import opened CanonicalJson
  import opened Digests
  import opened Cases

  const MAX_RESOURCES := 32

  // ---------------------------------------------------------------- names

  predicate Lower(c: char) {
    'a' <= c <= 'z' || '0' <= c <= '9'
  }

  predicate IsName(t: string) {
    0 < |t| <= 63 && Lower(t[0]) && forall i :: 0 <= i < |t| ==> Lower(t[i]) || t[i] == '.' || t[i] == '-'
  }

  predicate UidChar(c: char) {
    Lower(c) || 'A' <= c <= 'Z' || c == '-'
  }

  predicate IsUid(t: string) {
    0 < |t| <= 128 && forall i :: 0 <= i < |t| ==> UidChar(t[i])
  }

  predicate IsVersion(t: string) {
    0 < |t| <= 128 && forall i :: 0 <= i < |t| ==> UidChar(t[i]) || t[i] == '.' || t[i] == '_' || t[i] == ':'
  }

  // ---------------------------------------------------------------- rows

  datatype Binding = Binding(
    tenantId: string, environmentId: string, runNonce: string, capacityNonce: string, endpointId: string,
    releaseDigest: string, packetDigest: string, commandSetDigest: string, profileDigest: string)

  datatype Kind = Pod | ConfigMap | Service

  /** A cluster object's logical identity; every object of the ledger has apiVersion v1. */
  datatype Identity = Identity(kind: Kind, namespace: string, name: string)

  datatype Resource = Resource(
    actionId: int, id: Identity, manifestDigest: string, uid: Option<string>, resourceVersion: Option<string>)

  datatype Reason = DELETE_DENIED | UID_CHANGED | DEADLINE | IO_AMBIGUOUS | OBSERVATION_UNAVAILABLE

  datatype Remaining = Remaining(id: Identity, uid: Option<string>, manifestDigest: string, reasonCode: Reason)

  datatype CleanState = CLEAN | CLEANUP_PENDING

  datatype Receipt = Receipt(
    bindingDigest: string, operation: Case, observedAt: string, state: CleanState,
    remaining: seq<Remaining>, previousReceiptDigest: string)

  datatype RowState = RESERVED | RUNNING | CREATE_INTENT | CREATED | RECORDED

  datatype Row = Row(
    sequence: int, previousDigest: string, binding: Binding, state: RowState, operation: Option<Case>,
    observedAt: string, cleanup: Option<Receipt>, resource: Option<Resource>)

  type Key = (string, string)

  function KeyOf(r: Row): Key {
    (r.binding.tenantId, r.binding.runNonce)
  }

  // ---------------------------------------------------------------- canonical documents

  function OptionalJson(t: Option<string>): Json {
    match t case None => Null case Some(s) => Str(s)
  }

  function KindName(k: Kind): string {
    match k case Pod => "Pod" case ConfigMap => "ConfigMap" case Service => "Service"
  }

  function ReasonName(r: Reason): string {
    match r
    case DELETE_DENIED => "DELETE_DENIED"
    case UID_CHANGED => "UID_CHANGED"
    case DEADLINE => "DEADLINE"
    case IO_AMBIGUOUS => "IO_AMBIGUOUS"
    case OBSERVATION_UNAVAILABLE => "OBSERVATION_UNAVAILABLE"
  }

  function CleanName(s: CleanState): string {
    match s case CLEAN => "CLEAN" case CLEANUP_PENDING => "CLEANUP_PENDING"
  }

  function StateName(s: RowState): string {
    match s
    case RESERVED => "RESERVED"
    case RUNNING => "RUNNING"
    case CREATE_INTENT => "CREATE_INTENT"
    case CREATED => "CREATED"
    case RECORDED => "RECORDED"
  }

  function BindingJson(b: Binding): Json {
    Obj([
      Member("capacityNonce", Str(b.capacityNonce)),
      Member("commandSetDigest", Str(b.commandSetDigest)),
      Member("endpointId", Str(b.endpointId)),
      Member("environmentId", Str(b.environmentId)),
      Member("packetDigest", Str(b.packetDigest)),
      Member("profileDigest", Str(b.profileDigest)),
      Member("releaseDigest", Str(b.releaseDigest)),
      Member("runNonce", Str(b.runNonce)),
      Member("tenantId", Str(b.tenantId))])
  }

  function RemainingJson(r: Remaining): Json {
    Obj([
      Member("apiVersion", Str("v1")),
      Member("kind", Str(KindName(r.id.kind))),
      Member("manifestDigest", Str(r.manifestDigest)),
      Member("name", Str(r.id.name)),
      Member("namespace", Str(r.id.namespace)),
      Member("reasonCode", Str(ReasonName(r.reasonCode))),
      Member("uid", OptionalJson(r.uid))])
  }

  function RemainingItems(rows: seq<Remaining>): seq<Json> {
    seq(|rows|, i requires 0 <= i < |rows| => RemainingJson(rows[i]))
  }

  function ReceiptJson(r: Receipt): Json {
    Obj([
      Member("bindingDigest", Str(r.bindingDigest)),
      Member("observedAt", Str(r.observedAt)),
      Member("operation", Str(CaseName(r.operation))),
      Member("previousReceiptDigest", Str(r.previousReceiptDigest)),
      Member("remainingResources", Arr(RemainingItems(r.remaining))),
      Member("schemaVersion", Str("planeon.internal.proxy-cleanup/v1")),
      Member("state", Str(CleanName(r.state)))])
  }

  function ResourceJson(r: Resource): Json {
    Obj([
      Member("actionId", Int(r.actionId)),
      Member("apiVersion", Str("v1")),
      Member("kind", Str(KindName(r.id.kind))),
      Member("manifestDigest", Str(r.manifestDigest)),
      Member("name", Str(r.id.name)),
      Member("namespace", Str(r.id.namespace)),
      Member("resourceVersion", OptionalJson(r.resourceVersion)),
      Member("uid", OptionalJson(r.uid))])
  }

  function RowJson(r: Row): Json {
    Obj(
      [ Member("binding", BindingJson(r.binding)),
        Member("cleanup", match r.cleanup case None => Null case Some(c) => ReceiptJson(c)),
        Member("observedAt", Str(r.observedAt)),
        Member("operation", match r.operation case None => Null case Some(c) => Str(CaseName(c))),
        Member("previousDigest", Str(r.previousDigest))]
      + (match r.resource case None => [] case Some(x) => [Member("resource", ResourceJson(x))])
      + [ Member("sequence", Int(r.sequence)),
          Member("state", Str(StateName(r.state)))])
  }

  function RowDigest(w: Primitives, r: Row): string {
    w.Digest(RowJson(r))
  }

  function ReceiptDigest(w: Primitives, r: Receipt): string {
    w.Digest(ReceiptJson(r))
  }

  // ---------------------------------------------------------------- cleanup receipts

  predicate RemainingShape(r: Remaining) {
    && IsName(r.id.namespace) && IsName(r.id.name) && IsDigest(r.manifestDigest)
    && (if r.uid.None? then r.reasonCode == IO_AMBIGUOUS else IsUid(r.uid.value))
  }

  /** cleanup_receipt: the one receipt that may be recorded for these remaining resources. */
  function CleanupReceipt(w: Primitives, bindingDigest: string, operation: Case, now: string,
                          remaining: seq<Remaining>, previous: string): (r: Option<Receipt>)
  {
    if !IsDigest(bindingDigest) || !IsDigest(previous) || |remaining| > MAX_RESOURCES || !w.IsTime(now) then None
    else if !(forall i :: 0 <= i < |remaining| ==> RemainingShape(remaining[i])) then None
    else if !(forall i, j :: 0 <= i < j < |remaining| ==> remaining[i].id != remaining[j].id) then None
    else
      var receipt := Receipt(bindingDigest, operation, now, if remaining == [] then CLEAN else CLEANUP_PENDING, remaining, previous);
      if |Encode(ReceiptJson(receipt))| > 16384 then None else Some(receipt)
  }

  // ---------------------------------------------------------------- replay

  /** What the ledger knows of one resource: its latest row, the case it belongs to, and whether the API confirmed it. */
  datatype Entry = Entry(resource: Resource, operation: Case, created: bool)

  datatype Reservation = Reservation(
    binding: Binding, done: seq<Case>, current: Option<Case>, held: bool, cleanupDigest: string, last: int,
    resources: map<Identity, Entry>)

  datatype Ledger = Ledger(reservations: map<Key, Reservation>, recorded: set<(Key, Case)>, previous: string, count: nat)

  const EMPTY := Ledger(map[], {}, ZERO, 0)

  predicate BindingShape(b: Binding) {
    && IsName(b.tenantId) && IsName(b.environmentId) && IsName(b.runNonce) && IsName(b.capacityNonce) && IsName(b.endpointId)
    && IsDigest(b.releaseDigest) && IsDigest(b.packetDigest) && IsDigest(b.commandSetDigest) && IsDigest(b.profileDigest)
  }

  predicate ResourceShape(r: Resource) {
    1 <= r.actionId <= 256 && IsName(r.id.namespace) && IsName(r.id.name) && IsDigest(r.manifestDigest)
  }

  predicate NewIntent(resources: map<Identity, Entry>, r: Resource, operation: Case) {
    && r.uid.None? && r.resourceVersion.None?
    && |resources| < MAX_RESOURCES && r.id !in resources
    && (forall id :: id in resources ==>
          && resources[id].created
          && resources[id].resource.manifestDigest != r.manifestDigest
          && (resources[id].operation == operation ==> resources[id].resource.actionId < r.actionId))
  }

  predicate ConfirmsIntent(resources: map<Identity, Entry>, r: Resource, operation: Case) {
    && r.id in resources && !resources[r.id].created && resources[r.id].operation == operation
    && r.(uid := None, resourceVersion := None) == resources[r.id].resource.(uid := None, resourceVersion := None)
    && r.uid.Some? && IsUid(r.uid.value) && r.resourceVersion.Some? && IsVersion(r.resourceVersion.value)
    && (forall id :: id in resources ==> resources[id].resource.uid != r.uid)
  }

  /** `_resource_transition`. */
  function ResourceTransition(prior: Reservation, row: Row): Option<Reservation>
    requires row.operation.Some?
  {
    if row.resource.None? || row.cleanup.Some? || prior.current != row.operation then None
    else
      var r, operation := row.resource.value, row.operation.value;
      if !ResourceShape(r) then None
      else if !(if row.state == CREATE_INTENT then NewIntent(prior.resources, r, operation)
                else ConfirmsIntent(prior.resources, r, operation)) then None
      else Some(prior.(resources := prior.resources[r.id := Entry(r, operation, row.state == CREATED)]))
  }

  /** What an entry of a receipt and a resource on the books are compared by. */
  function Triple(m: Remaining): (Identity, Option<string>, string) {
    (m.id, m.uid, m.manifestDigest)
  }

  function EntryTriple(resources: map<Identity, Entry>, id: Identity): (Identity, Option<string>, string)
    requires id in resources
  {
    (id, resources[id].resource.uid, resources[id].resource.manifestDigest)
  }

  /** The identities, uids and digests a receipt lists, as the comparison of the RECORDED rule sees them. */
  function Listed(remaining: seq<Remaining>): set<(Identity, Option<string>, string)> {
    set i | 0 <= i < |remaining| :: Triple(remaining[i])
  }

  function ResourcesOf(resources: map<Identity, Entry>, operation: Case): set<Identity> {
    set id | id in resources && resources[id].operation == operation
  }

  function Tracked(resources: map<Identity, Entry>, operation: Case): set<(Identity, Option<string>, string)> {
    set id | id in ResourcesOf(resources, operation) :: EntryTriple(resources, id)
  }

  /** The RECORDED branch of parse_reservations. */
  function RecordTransition(w: Primitives, prior: Reservation, row: Row): Option<Reservation>
    requires row.operation.Some?
  {
    if row.cleanup.None? || prior.current != row.operation then None
    else
      var receipt, operation := row.cleanup.value, row.operation.value;
      var expected := CleanupReceipt(w, w.Digest(BindingJson(row.binding)), operation, row.observedAt, receipt.remaining, prior.cleanupDigest);
      if expected != Some(receipt) then None
      else if ResourcesOf(prior.resources, operation) != {}
              && (|receipt.remaining| != |ResourcesOf(prior.resources, operation)|
                  || Listed(receipt.remaining) != Tracked(prior.resources, operation)) then None
      else
        Some(prior.(cleanupDigest := ReceiptDigest(w, receipt),
                    current := if receipt.state == CLEAN then None else Some(operation),
                    held := |prior.done| < |CASES| || receipt.state != CLEAN))
  }

  /** A row for a key the ledger already knows. */
  function Continue(w: Primitives, s: Ledger, prior: Reservation, row: Row): Option<Reservation> {
    if row.binding != prior.binding || !w.IsTime(row.observedAt) || !prior.held || row.operation.None? then None
    else if w.Instant(row.observedAt) < prior.last then None
    else
      match row.state
      case RESERVED => None
      case RUNNING =>
        if prior.current.Some? || row.operation.value in prior.done || row.cleanup.Some? then None
        else Some(prior.(current := row.operation, done := prior.done + [row.operation.value]))
      case RECORDED => RecordTransition(w, prior, row)
      case _ =>
        if (KeyOf(row), row.operation.value) in s.recorded then None else ResourceTransition(prior, row)
  }

  function Open(w: Primitives, s: Ledger, row: Row): Option<Reservation>
    requires w.IsTime(row.observedAt)
  {
    if row.state != RESERVED || row.operation.Some? || row.cleanup.Some? then None
    else if exists k :: k in s.reservations && s.reservations[k].held then None
    else Some(Reservation(row.binding, [], None, true, ZERO, w.Instant(row.observedAt), map[]))
  }

  /** One row of the ledger. */
  function Step(w: Primitives, s: Ledger, row: Row): Option<Ledger> {
    if || !BindingShape(row.binding) || row.sequence != s.count + 1 || row.previousDigest != s.previous
       || !w.IsTime(row.observedAt) || (row.resource.Some? <==> !(row.state == CREATE_INTENT || row.state == CREATED)) then None
    else
      var key := KeyOf(row);
      match if key in s.reservations then Continue(w, s, s.reservations[key], row) else Open(w, s, row)
      case None => None
      case Some(r) =>
        var recorded := if row.state == RECORDED && row.operation.Some? then s.recorded + {(key, row.operation.value)} else s.recorded;
        Some(Ledger(s.reservations[key := r.(last := w.Instant(row.observedAt))], recorded, RowDigest(w, row), s.count + 1))
  }

  function Replay(w: Primitives, rows: seq<Row>): (r: Option<Ledger>)
    ensures r.Some? ==> r.value.count == |rows|
  {
    if rows == [] then Some(EMPTY)
    else
      match Replay(w, rows[..|rows| - 1])
      case None => None
      case Some(s) => Step(w, s, rows[|rows| - 1])
  }
}
