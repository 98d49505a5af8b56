/**
  The execution profile (live_mutation_admission.py): the manifests a run may create, the quota they
  must fit, and the ledger record derived from one CREATE action.  A profile stays the JSON document
  it is in the source, so its digest pins all of it.
 */
module Profiles {
  import opened Prelude
  import opened CanonicalJson
  import opened Digests
  import opened Digits
  import opened Cases
  import opened AdmissionLedger

  const MAX_MANIFEST := 16384

  // ---------------------------------------------------------------- documents

  function Find(members: seq<Member>, key: string): Option<Json> {
    if members == [] then None
    else if members[0].key == key then Some(members[0].value)
    else Find(members[1..], key)
  }

  function Get(v: Json, key: string): Json {
    match v
    case Obj(members) => (match Find(members, key) case Some(x) => x case None => Null)
    case _ => Null
  }

  function Text(v: Json): string {
    if v.Str? then v.s else ""
  }

  function Items(v: Json): seq<Json> {
    if v.Arr? then v.items else []
  }

  /** `dict.pop(key, None)` on the members of an object. */
  function Without(members: seq<Member>, key: string): seq<Member> {
    if members == [] then []
    else if members[0].key == key then Without(members[1..], key)
    else [members[0]] + Without(members[1..], key)
  }

  // ---------------------------------------------------------------- manifests

  function KindText(manifest: Json): string {
    Text(Get(manifest, "kind"))
  }

  function NameOf(manifest: Json): string {
    Text(Get(Get(manifest, "metadata"), "name"))
  }

  function NamespaceOf(manifest: Json): string {
    Text(Get(Get(manifest, "metadata"), "namespace"))
  }

  function Container(manifest: Json): Json {
    var containers := Items(Get(Get(manifest, "spec"), "containers"));
    if containers == [] then Null else containers[0]
  }

  function Limit(manifest: Json, field: string): string {
    Text(Get(Get(Get(Container(manifest), "resources"), "limits"), field))
  }

  /** The schema's quantity patterns: a leading digit 1-9, then at most `more` digits. */
  predicate IsAmount(t: string, more: nat) {
    && 1 <= |t| <= more + 1 && t[0] != '0' && forall i :: 0 <= i < |t| ==> IsDigit(t[i])
  }

  predicate IsCpu(t: string) {
    t != "" && t[|t| - 1] == 'm' && IsAmount(t[..|t| - 1], 6)
  }

  function Amount(t: string): nat {
    if forall i :: 0 <= i < |t| ==> IsDigit(t[i]) then NumberOf(t) else 0
  }

  function CpuAmount(t: string): nat {
    if t == "" then 0 else Amount(t[..|t| - 1])
  }

  predicate IsKind(t: string) {
    t == "Pod" || t == "ConfigMap" || t == "Service"
  }

  function KindOf(t: string): (k: Kind)
    ensures IsKind(t) ==> KindName(k) == t
  {
    if t == "ConfigMap" then ConfigMap else if t == "Service" then Service else Pod
  }

  predicate ManifestShape(manifest: Json) {
    && IsKind(KindText(manifest)) && IsName(NameOf(manifest)) && IsName(NamespaceOf(manifest))
    && (KindText(manifest) == "Pod" ==>
          && IsCpu(Limit(manifest, "cpu")) && IsAmount(Limit(manifest, "memory"), 14)
          && IsAmount(Limit(manifest, "ephemeral-storage"), 14)
          && Get(Get(Container(manifest), "resources"), "requests") == Get(Get(Container(manifest), "resources"), "limits"))
  }

  // ---------------------------------------------------------------- units

  datatype Unit = PODS | CONFIG_MAPS | SERVICES | CPU_MILLIS | MEMORY_BYTES | EPHEMERAL_STORAGE_BYTES

  const UNITS: set<Unit> := {PODS, CONFIG_MAPS, SERVICES, CPU_MILLIS, MEMORY_BYTES, EPHEMERAL_STORAGE_BYTES}

  const NOTHING: map<Unit, int> := map u | u in UNITS :: 0

  lemma {:induction false} EveryUnit(u: Unit)
    ensures u in UNITS
  {
  }

  function UnitName(u: Unit): string {
    match u
    case PODS => "pods"
    case CONFIG_MAPS => "configMaps"
    case SERVICES => "services"
    case CPU_MILLIS => "cpuMillis"
    case MEMORY_BYTES => "memoryBytes"
    case EPHEMERAL_STORAGE_BYTES => "ephemeralStorageBytes"
  }

  function CountedAs(kind: string): Unit {
    if kind == "Pod" then PODS else if kind == "ConfigMap" then CONFIG_MAPS else SERVICES
  }

  /** What one manifest takes of a unit. */
  function Share(manifest: Json, u: Unit): nat {
    match u
    case PODS => if KindText(manifest) == "Pod" then 1 else 0
    case CONFIG_MAPS => if KindText(manifest) == "ConfigMap" then 1 else 0
    case SERVICES => if KindText(manifest) == "Service" then 1 else 0
    case CPU_MILLIS => if KindText(manifest) == "Pod" then CpuAmount(Limit(manifest, "cpu")) else 0
    case MEMORY_BYTES => if KindText(manifest) == "Pod" then Amount(Limit(manifest, "memory")) else 0
    case EPHEMERAL_STORAGE_BYTES => if KindText(manifest) == "Pod" then Amount(Limit(manifest, "ephemeral-storage")) else 0
  }

  function ManifestOf(row: Json): Json {
    Get(row, "manifest")
  }

  function DigestOf(row: Json): string {
    Text(Get(row, "manifestDigest"))
  }

  function Units(rows: seq<Json>, u: Unit): nat {
    if rows == [] then 0 else Units(rows[..|rows| - 1], u) + Share(ManifestOf(rows[|rows| - 1]), u)
  }

  function Resources(profile: Json): seq<Json> {
    Items(Get(profile, "resources"))
  }

  function Quota(profile: Json, u: Unit): int {
    var q := Get(Get(profile, "quota"), UnitName(u));
    if q.Int? then q.n else -1
  }

  // ---------------------------------------------------------------- the resource part of validate_profile

  function Namespace(profile: Json): string {
    Text(Get(Get(profile, "binding"), "namespace"))
  }

  function Scope(profile: Json): Json {
    Get(profile, "binding")
  }

  /** The labels every manifest carries and every Service selects. */
  function ExpectedLabels(profile: Json): Json {
    Obj([
      Member("planeon.ai/run-nonce", Get(Scope(profile), "runNonce")),
      Member("planeon.ai/tenant-id", Get(Scope(profile), "tenantId"))])
  }

  /** `t.rsplit(":", 1)[1]`. */
  function LastPiece(t: string): string {
    if ':' in t then LastPiece(t[1..]) else t
  }

  function ServiceAccount(profile: Json): string {
    LastPiece(Text(Get(Scope(profile), "serviceAccountSubject")))
  }

  /** The manifest names an object that is already there. */
  predicate TakesOver(profile: Json, manifest: Json) {
    var references := Items(Get(Get(profile, "capacityEntries"), "preexistingResourceRefs"));
    exists i :: 0 <= i < |references|
                && Get(references[i], "apiVersion") == Str("v1") && Get(references[i], "kind") == Str(KindText(manifest))
                && Get(references[i], "namespace") == Str(NamespaceOf(manifest)) && Get(references[i], "name") == Str(NameOf(manifest))
  }

  predicate InScope(profile: Json, manifest: Json) {
    && NamespaceOf(manifest) == Namespace(profile)
    && Get(Get(manifest, "metadata"), "labels") == ExpectedLabels(profile)
    && !TakesOver(profile, manifest)
    && (KindText(manifest) == "Pod" ==> Text(Get(Get(manifest, "spec"), "serviceAccountName")) == ServiceAccount(profile))
    && (KindText(manifest) == "Service" ==> Get(Get(manifest, "spec"), "selector") == ExpectedLabels(profile))
  }

  predicate RowValid(w: Primitives, profile: Json, row: Json) {
    && ManifestShape(ManifestOf(row))
    && |Encode(ManifestOf(row))| <= MAX_MANIFEST
    && DigestOf(row) == w.Digest(ManifestOf(row))
    && InScope(profile, ManifestOf(row))
  }

  function LogicalName(row: Json): (string, string) {
    (KindText(ManifestOf(row)), NameOf(ManifestOf(row)))
  }

  predicate NamesDistinct(rows: seq<Json>) {
    forall i, j :: 0 <= i < j < |rows| ==> LogicalName(rows[i]) != LogicalName(rows[j])
  }

  predicate RowsValid(w: Primitives, profile: Json, rows: seq<Json>) {
    forall i :: 0 <= i < |rows| ==> RowValid(w, profile, rows[i])
  }

  predicate WithinQuota(profile: Json, rows: seq<Json>) {
    forall u: Unit :: 0 <= Quota(profile, u) <= MAX_SAFE && Units(rows, u) <= Quota(profile, u)
  }

  function LogicalNames(rows: seq<Json>): set<(string, string)> {
    set i | 0 <= i < |rows| :: LogicalName(rows[i])
  }

  /** The images the Pods of some rows run. */
  function Images(rows: seq<Json>): set<string> {
    set i | 0 <= i < |rows| && KindText(ManifestOf(rows[i])) == "Pod" :: Text(Get(Container(ManifestOf(rows[i])), "image"))
  }

  function Texts(items: seq<Json>): set<string> {
    set i | 0 <= i < |items| :: Text(items[i])
  }

  /** The names a grant gives, with its kind. */
  function Granted(rules: seq<Json>): set<(string, string)> {
    set i, name | 0 <= i < |rules| && name in Texts(Items(Get(rules[i], "names"))) :: (Text(Get(rules[i], "kind")), name)
  }

  /** One grant per kind, none empty, and together exactly the objects of the profile. */
  predicate GrantsExact(rules: seq<Json>, names: set<(string, string)>) {
    && (forall i, j :: 0 <= i < j < |rules| ==> Text(Get(rules[i], "kind")) != Text(Get(rules[j], "kind")))
    && (forall i :: 0 <= i < |rules| ==> Items(Get(rules[i], "names")) != [])
    && Granted(rules) == names
  }

  const VERBS := {"create", "get", "delete"}

  function ApiName(kind: string): string {
    if kind == "Pod" then "pods" else if kind == "ConfigMap" then "configmaps" else "services"
  }

  function ApiKey(rule: Json): (Json, string, string, string) {
    (Get(rule, "endpointId"), Text(Get(rule, "verb")), Text(Get(rule, "resource")), Text(Get(rule, "name")))
  }

  function ApiKeys(rules: seq<Json>): set<(Json, string, string, string)> {
    set i | 0 <= i < |rules| :: ApiKey(rules[i])
  }

  function ApiNeeds(endpoint: Json, names: set<(string, string)>): set<(Json, string, string, string)> {
    set n, verb | n in names && verb in VERBS :: (endpoint, verb, ApiName(n.0), n.1)
  }

  /** Distinct API rules in the namespace, exactly the three verbs on each object of the profile. */
  predicate ApiExact(profile: Json, names: set<(string, string)>) {
    var rules := Items(Get(Get(profile, "capacityEntries"), "kubernetesApiRules"));
    && (forall i :: 0 <= i < |rules| ==> Get(rules[i], "namespace") == Get(Scope(profile), "namespace"))
    && (forall i, j :: 0 <= i < j < |rules| ==> ApiKey(rules[i]) != ApiKey(rules[j]))
    && ApiKeys(rules) == ApiNeeds(Get(Scope(profile), "apiEndpointId"), names)
  }

  /** What the grants, the API rules and the image list must say of the manifests. */
  predicate Granting(profile: Json, names: set<(string, string)>, images: set<string>) {
    && GrantsExact(Items(Get(Get(profile, "capacityEntries"), "permittedGvksAndVerbs")), names)
    && ApiExact(profile, names)
    && images == Texts(Items(Get(profile, "localImages")))
  }

  predicate ValidProfile(w: Primitives, profile: Json) {
    && Normal(profile)
    && |Resources(profile)| <= MAX_RESOURCES
    && RowsValid(w, profile, Resources(profile)) && NamesDistinct(Resources(profile))
    && Granting(profile, LogicalNames(Resources(profile)), Images(Resources(profile)))
    && WithinQuota(profile, Resources(profile))
  }

  /** One manifest's units added to the running totals, as both unit loops of the source do. */
  function AddedUnits(units: map<Unit, int>, manifest: Json): map<Unit, int>
    requires forall u: Unit :: u in units
  {
    var counted := CountedAs(KindText(manifest));
    var one := units[counted := units[counted] + 1];
    if KindText(manifest) != "Pod" then one
    else
      one[CPU_MILLIS := one[CPU_MILLIS] + CpuAmount(Limit(manifest, "cpu"))]
         [MEMORY_BYTES := one[MEMORY_BYTES] + Amount(Limit(manifest, "memory"))]
         [EPHEMERAL_STORAGE_BYTES := one[EPHEMERAL_STORAGE_BYTES] + Amount(Limit(manifest, "ephemeral-storage"))]
  }

  predicate UnitsAre(units: map<Unit, int>, rows: seq<Json>) {
    forall u: Unit :: u in units && units[u] == Units(rows, u)
  }

  lemma {:induction false} NothingYet()
    ensures UnitsAre(NOTHING, [])
  {
    forall u: Unit
      ensures u in NOTHING && NOTHING[u] == 0
    {
      EveryUnit(u);
    }
  }

  lemma {:induction false} AddedShare(units: map<Unit, int>, manifest: Json, u: Unit)
    requires (forall v: Unit :: v in units) && IsKind(KindText(manifest))
    ensures u in AddedUnits(units, manifest) && AddedUnits(units, manifest)[u] == units[u] + Share(manifest, u)
  {
  }

  lemma {:induction false} AddedUnitsAre(units: map<Unit, int>, rows: seq<Json>)
    requires rows != [] && UnitsAre(units, rows[..|rows| - 1])
    requires IsKind(KindText(ManifestOf(rows[|rows| - 1])))
    ensures UnitsAre(AddedUnits(units, ManifestOf(rows[|rows| - 1])), rows)
  {
    var manifest, total := ManifestOf(rows[|rows| - 1]), AddedUnits(units, ManifestOf(rows[|rows| - 1]));
    forall u: Unit
      ensures u in total && total[u] == Units(rows, u)
    {
      AddedShare(units, manifest, u);
      assert units[u] == Units(rows[..|rows| - 1], u);
    }
  }

  lemma {:induction false} AddedPrefix(units: map<Unit, int>, rows: seq<Json>, i: nat)
    requires i < |rows| && UnitsAre(units, rows[..i]) && IsKind(KindText(ManifestOf(rows[i])))
    ensures UnitsAre(AddedUnits(units, ManifestOf(rows[i])), rows[..i + 1])
  {
    assert rows[..i + 1][..i] == rows[..i];
    AddedUnitsAre(units, rows[..i + 1]);
  }

  /** Looking at the six totals is looking at every unit. */
  lemma {:induction false} AllWithin(units: map<Unit, int>, rows: seq<Json>, bound: Unit -> int)
    requires UnitsAre(units, rows)
    ensures (forall u :: u in UNITS ==> 0 <= units[u] <= bound(u)) <==> (forall u: Unit :: Units(rows, u) <= bound(u))
  {
    forall u: Unit
      ensures u in UNITS && units[u] == Units(rows, u)
    {
      EveryUnit(u);
    }
  }

  /** `resource_units`: refused only when a total leaves the safe integers. */
  method ResourceUnits(profile: Json) returns (r: Option<map<Unit, int>>)
    requires forall i :: 0 <= i < |Resources(profile)| ==> IsKind(KindText(ManifestOf(Resources(profile)[i])))
    ensures r.Some? <==> forall u: Unit :: Units(Resources(profile), u) <= MAX_SAFE
    ensures r.Some? ==> UnitsAre(r.value, Resources(profile))
  {
    var rows := Resources(profile);
    var units := NOTHING;
    NothingYet();
    var i := 0;
    while i < |rows|
      invariant 0 <= i <= |rows|
      invariant UnitsAre(units, rows[..i])
    {
      AddedPrefix(units, rows, i);
      units := AddedUnits(units, ManifestOf(rows[i]));
      i := i + 1;
    }
    assert rows[..i] == rows;
    AllWithin(units, rows, u => MAX_SAFE);
    r := if forall u | u in UNITS :: 0 <= units[u] <= MAX_SAFE then Some(units) else None;
  }

  predicate Checked(w: Primitives, profile: Json, rows: seq<Json>) {
    RowsValid(w, profile, rows) && NamesDistinct(rows)
  }

  lemma {:induction false} RowsNext(w: Primitives, profile: Json, rows: seq<Json>, i: nat)
    requires i < |rows|
    ensures RowsValid(w, profile, rows[..i + 1]) <==> RowsValid(w, profile, rows[..i]) && RowValid(w, profile, rows[i])
  {
    var before, more := rows[..i], rows[..i + 1];
    assert more[i] == rows[i] && forall j :: 0 <= j < i ==> more[j] == before[j];
    if RowsValid(w, profile, more) {
      assert RowValid(w, profile, more[i]);
    }
  }

  lemma {:induction false} NamesNext(rows: seq<Json>, i: nat)
    requires i < |rows| && NamesDistinct(rows[..i])
    ensures NamesDistinct(rows[..i + 1]) <==> LogicalName(rows[i]) !in LogicalNames(rows[..i])
    ensures LogicalNames(rows[..i + 1]) == LogicalNames(rows[..i]) + {LogicalName(rows[i])}
  {
    var before, more := rows[..i], rows[..i + 1];
    assert more[i] == rows[i] && forall j :: 0 <= j < i ==> more[j] == before[j];
    if LogicalName(rows[i]) in LogicalNames(before) {
      var j :| 0 <= j < i && LogicalName(before[j]) == LogicalName(rows[i]);
      assert LogicalName(more[j]) == LogicalName(more[i]);
    }
  }

  lemma {:induction false} CheckedNext(w: Primitives, profile: Json, rows: seq<Json>, i: nat)
    requires i < |rows| && Checked(w, profile, rows[..i])
    ensures Checked(w, profile, rows[..i + 1]) <==>
            RowValid(w, profile, rows[i]) && LogicalName(rows[i]) !in LogicalNames(rows[..i])
    ensures LogicalNames(rows[..i + 1]) == LogicalNames(rows[..i]) + {LogicalName(rows[i])}
  {
    RowsNext(w, profile, rows, i);
    NamesNext(rows, i);
  }

  lemma {:induction false} CheckedPrefix(w: Primitives, profile: Json, rows: seq<Json>, k: nat)
    requires k <= |rows| && Checked(w, profile, rows)
    ensures Checked(w, profile, rows[..k])
  {
  }

  lemma {:induction false} Rejected(w: Primitives, profile: Json, k: nat)
    requires k <= |Resources(profile)| && !Checked(w, profile, Resources(profile)[..k])
    ensures !ValidProfile(w, profile)
  {
    if Checked(w, profile, Resources(profile)) {
      CheckedPrefix(w, profile, Resources(profile), k);
    }
  }

  predicate TotalsWithin(units: map<Unit, int>, profile: Json)
    requires forall u: Unit :: u in units
  {
    forall u | u in UNITS :: 0 <= units[u] <= Quota(profile, u)
  }

  lemma {:induction false} TotalsMean(profile: Json, rows: seq<Json>, units: map<Unit, int>)
    requires (forall u: Unit :: 0 <= Quota(profile, u) <= MAX_SAFE) && UnitsAre(units, rows)
    ensures TotalsWithin(units, profile) <==> WithinQuota(profile, rows)
  {
    forall u: Unit
      ensures u in UNITS && units[u] == Units(rows, u)
    {
      EveryUnit(u);
    }
  }

  lemma {:induction false} Finished(w: Primitives, profile: Json, rows: seq<Json>, granting: bool, within: bool)
    requires Normal(profile) && rows == Resources(profile) && |rows| <= MAX_RESOURCES && Checked(w, profile, rows)
    requires granting <==> Granting(profile, LogicalNames(rows), Images(rows))
    requires within <==> WithinQuota(profile, rows)
    ensures granting && within <==> ValidProfile(w, profile)
  {
  }

  function ImageOf(manifest: Json): set<string> {
    if KindText(manifest) == "Pod" then {Text(Get(Container(manifest), "image"))} else {}
  }

  lemma {:induction false} ImagesNext(rows: seq<Json>, i: nat)
    requires i < |rows|
    ensures Images(rows[..i + 1]) == Images(rows[..i]) + ImageOf(ManifestOf(rows[i]))
  {
    var before, more := rows[..i], rows[..i + 1];
    assert more[i] == rows[i] && forall j :: 0 <= j < i ==> more[j] == before[j];
    forall image | image in Images(more)
      ensures image in Images(before) + ImageOf(ManifestOf(rows[i]))
    {
      var j :| 0 <= j <= i && KindText(ManifestOf(more[j])) == "Pod" && Text(Get(Container(ManifestOf(more[j])), "image")) == image;
      assert j < i ==> before[j] == more[j];
    }
    forall image | image in Images(before)
      ensures image in Images(more)
    {
      var j :| 0 <= j < i && KindText(ManifestOf(before[j])) == "Pod" && Text(Get(Container(ManifestOf(before[j])), "image")) == image;
      assert before[j] == more[j];
    }
  }

  lemma {:induction false} AddedRow(w: Primitives, profile: Json, units: map<Unit, int>, rows: seq<Json>, i: nat)
    requires i < |rows| && RowValid(w, profile, rows[i]) && UnitsAre(units, rows[..i])
    ensures UnitsAre(AddedUnits(units, ManifestOf(rows[i])), rows[..i + 1])
    ensures Images(rows[..i + 1]) == Images(rows[..i]) + ImageOf(ManifestOf(rows[i]))
  {
    AddedPrefix(units, rows, i);
    ImagesNext(rows, i);
  }

  /** The resource loop of validate_profile with its running names, images and totals, and the comparisons behind it. */
  method CheckResources(w: Primitives, profile: Json) returns (ok: bool)
    requires Normal(profile) && |Resources(profile)| <= MAX_RESOURCES
    requires forall u: Unit :: 0 <= Quota(profile, u) <= MAX_SAFE
    ensures ok <==> ValidProfile(w, profile)
  {
    var rows := Resources(profile);
    var units := NOTHING;
    NothingYet();
    var names: set<(string, string)>, images: set<string> := {}, {};
    var i := 0;
    while i < |rows|
      invariant 0 <= i <= |rows|
      invariant UnitsAre(units, rows[..i])
      invariant Checked(w, profile, rows[..i]) && names == LogicalNames(rows[..i]) && images == Images(rows[..i])
    {
      CheckedNext(w, profile, rows, i);
      var valid := RowValid(w, profile, rows[i]);
      if !valid || LogicalName(rows[i]) in names {
        Rejected(w, profile, i + 1);
        return false;
      }
      AddedRow(w, profile, units, rows, i);
      units, names := AddedUnits(units, ManifestOf(rows[i])), names + {LogicalName(rows[i])};
      images, i := images + ImageOf(ManifestOf(rows[i])), i + 1;
    }
    assert rows[..i] == rows;
    TotalsMean(profile, rows, units);
    var granting, within := Granting(profile, names, images), TotalsWithin(units, profile);
    Finished(w, profile, rows, granting, within);
    ok := granting && within;
  }

  /** A validated profile's units never overflow. */
  lemma {:induction false} ValidatedNeverOverflows(w: Primitives, profile: Json, u: Unit)
    requires ValidProfile(w, profile)
    ensures Units(Resources(profile), u) <= Quota(profile, u) <= MAX_SAFE
  {
  }

  // ---------------------------------------------------------------- _create_record

  datatype Verb = CREATE | GET | DELETE

  datatype Action = Action(actionId: int, verb: Verb, manifestDigest: string)

  /** What the ledger code reads of a broker binding; its schema gives every case a list of digests. */
  datatype BrokerBinding = BrokerBinding(profileDigest: string, caseResourceDigests: map<Case, seq<string>>)

  predicate EveryCaseListed(broker: BrokerBinding) {
    forall c: Case :: c in broker.caseResourceDigests
  }

  function AssignedTo(broker: BrokerBinding, cases: seq<Case>): seq<string>
    requires EveryCaseListed(broker)
  {
    if cases == [] then [] else broker.caseResourceDigests[cases[0]] + AssignedTo(broker, cases[1..])
  }

  function ResourceDigests(rows: seq<Json>): set<string> {
    set i | 0 <= i < |rows| :: DigestOf(rows[i])
  }

  predicate DistinctTexts(texts: seq<string>) {
    forall i, j :: 0 <= i < j < |texts| ==> texts[i] != texts[j]
  }

  predicate Owns(broker: BrokerBinding, profile: Json, operation: Case, digest: string)
    requires EveryCaseListed(broker)
  {
    var owned := AssignedTo(broker, CASES);
    && DistinctTexts(owned)
    && (set d | d in owned) == ResourceDigests(Resources(profile))
    && digest in broker.caseResourceDigests[operation]
  }

  predicate SameScope(b: Binding, profile: Json) {
    var scope := Get(profile, "binding");
    && Get(scope, "tenantId") == Str(b.tenantId) && Get(scope, "environmentId") == Str(b.environmentId)
    && Get(scope, "runNonce") == Str(b.runNonce) && Get(scope, "capacityNonce") == Str(b.capacityNonce)
    && Get(scope, "endpointId") == Str(b.endpointId)
  }

  /** The first profile row with a digest. */
  function RowFor(rows: seq<Json>, digest: string): Option<Json> {
    if rows == [] then None
    else if DigestOf(rows[0]) == digest then Some(rows[0])
    else RowFor(rows[1..], digest)
  }

  function Stripped(observed: Json): Json {
    match observed
    case Obj(members) => Obj(StrippedMembers(members, KindText(observed) == "Service"))
    case _ => observed
  }

  /** The object without what the API server filled in. */
  function StrippedMembers(members: seq<Member>, service: bool): seq<Member> {
    if members == [] then []
    else
      var m := members[0];
      var kept :=
        if m.key == "metadata" && m.value.Obj? then
          Member(m.key, Obj(Without(Without(Without(m.value.members, "uid"), "resourceVersion"), "creationTimestamp")))
        else if m.key == "spec" && m.value.Obj? && service then
          Member(m.key, Obj(Without(m.value.members, "clusterIP")))
        else m;
      [kept] + StrippedMembers(members[1..], service)
  }

  /** A text that is the canonical form of an IP address; an absent or foreign value is none. */
  predicate IsAddress(w: Primitives, v: Json) {
    v.Str? && w.address(v.s)
  }

  /** `validate_observed_manifest`: the uid and version of an object that is the manifest in every other respect. */
  function ObservedIdentity(w: Primitives, observed: Json, manifest: Json): (r: Option<(string, string)>)
    ensures r.Some? ==> IsUid(r.value.0) && IsVersion(r.value.1) && Stripped(observed) == manifest
  {
    var meta := Get(observed, "metadata");
    var uid, version := Text(Get(meta, "uid")), Text(Get(meta, "resourceVersion"));
    if |Encode(observed)| > MAX_MANIFEST || !IsUid(uid) || !IsVersion(version) then None
    else if KindText(observed) == "Service" && !IsAddress(w, Get(Get(observed, "spec"), "clusterIP")) then None
    else if Stripped(observed) != manifest then None
    else Some((uid, version))
  }

  /** `_create_record`: the one resource row a CREATE action of this profile may put in the ledger. */
  function CreateRecord(w: Primitives, b: Binding, operation: Case, profile: Json, broker: BrokerBinding, action: Action, observed: Option<Json>): Option<Resource> {
    if |Encode(BindingJson(b))| > 16384 || !ValidProfile(w, profile) || !EveryCaseListed(broker) then None
    else if action.verb != CREATE || !(1 <= action.actionId <= 256) || !IsDigest(action.manifestDigest) then None
    else if b.profileDigest != w.Digest(profile) || broker.profileDigest != w.Digest(profile) || !SameScope(b, profile) then None
    else if !Owns(broker, profile, operation, action.manifestDigest) then None
    else
      match RowFor(Resources(profile), action.manifestDigest)
      case None => None
      case Some(row) =>
        var manifest := ManifestOf(row);
        var id := Identity(KindOf(KindText(manifest)), NamespaceOf(manifest), NameOf(manifest));
        match observed
        case None => Some(Resource(action.actionId, id, action.manifestDigest, None, None))
        case Some(o) =>
          match ObservedIdentity(w, o, manifest)
          case None => None
          case Some(got) => Some(Resource(action.actionId, id, action.manifestDigest, Some(got.0), Some(got.1)))
  }

  lemma {:induction false} RowForFinds(rows: seq<Json>, digest: string)
    ensures RowFor(rows, digest).Some? <==> digest in ResourceDigests(rows)
    ensures RowFor(rows, digest).Some? ==> RowFor(rows, digest).value in rows && DigestOf(RowFor(rows, digest).value) == digest
  {
    if rows != [] {
      RowForFinds(rows[1..], digest);
      assert ResourceDigests(rows) == {DigestOf(rows[0])} + ResourceDigests(rows[1..]) by {
        SplitFirstDigest(rows);
      }
    }
  }

  lemma {:induction false} SplitFirstDigest(rows: seq<Json>)
    requires rows != []
    ensures ResourceDigests(rows) == {DigestOf(rows[0])} + ResourceDigests(rows[1..])
  {
    forall d | d in ResourceDigests(rows)
      ensures d in {DigestOf(rows[0])} + ResourceDigests(rows[1..])
    {
      var i :| 0 <= i < |rows| && DigestOf(rows[i]) == d;
      assert i > 0 ==> rows[1..][i - 1] == rows[i];
    }
    forall d | d in ResourceDigests(rows[1..])
      ensures d in ResourceDigests(rows)
    {
      var i :| 0 <= i < |rows| - 1 && DigestOf(rows[1..][i]) == d;
      assert rows[1..][i] == rows[i + 1];
    }
  }

  /** `next(...)` of _create_record never runs dry: every digest the binding assigns has its manifest in the profile. */
  lemma {:induction false} OwnedHasManifest(broker: BrokerBinding, profile: Json, operation: Case, digest: string)
    requires EveryCaseListed(broker) && Owns(broker, profile, operation, digest)
    ensures RowFor(Resources(profile), digest).Some?
  {
    AssignedCovers(broker, CASES, operation, digest);
    RowForFinds(Resources(profile), digest);
  }

  lemma {:induction false} AssignedCovers(broker: BrokerBinding, cases: seq<Case>, operation: Case, digest: string)
    requires EveryCaseListed(broker) && digest in broker.caseResourceDigests[operation]
    ensures operation in cases ==> digest in AssignedTo(broker, cases)
  {
    if cases != [] && operation != cases[0] {
      AssignedCovers(broker, cases[1..], operation, digest);
    }
  }
}
