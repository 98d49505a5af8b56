/** Reading ledger rows back from their canonical documents. */
module AdmissionCodec {
  import opened Prelude
  import opened CanonicalJson
  import opened Digests
  import opened Cases
  import opened AdmissionLedger

  function At(v: Json, i: nat): Json {
    if v.Obj? && i < |v.members| then v.members[i].value else Null
  }

  function TextIn(v: Json): string {
    if v.Str? then v.s else ""
  }

  function TextAt(v: Json, i: nat): string {
    TextIn(At(v, i))
  }

  function NumberAt(v: Json, i: nat): int {
    var x := At(v, i); if x.Int? then x.n else 0
  }

  function OptionalAt(v: Json, i: nat): Option<string> {
    var x := At(v, i); if x.Str? then Some(x.s) else None
  }

  function KindNamed(t: string): Kind {
    if t == "ConfigMap" then ConfigMap else if t == "Service" then Service else Pod
  }

  function ReasonNamed(t: string): Reason {
    if t == "DELETE_DENIED" then DELETE_DENIED
    else if t == "UID_CHANGED" then UID_CHANGED
    else if t == "DEADLINE" then DEADLINE
    else if t == "IO_AMBIGUOUS" then IO_AMBIGUOUS
    else OBSERVATION_UNAVAILABLE
  }

  function StateNamed(t: string): RowState {
    if t == "RESERVED" then RESERVED
    else if t == "RUNNING" then RUNNING
    else if t == "CREATE_INTENT" then CREATE_INTENT
    else if t == "CREATED" then CREATED
    else RECORDED
  }

  function CaseIn(t: string): Case {
    match CaseNamed(t) case Some(c) => c case None => HOST_ISOLATION_NEGATIVES
  }

  function BindingIn(v: Json): Binding {
    Binding(TextAt(v, 8), TextAt(v, 3), TextAt(v, 7), TextAt(v, 0), TextAt(v, 2), TextAt(v, 6), TextAt(v, 4), TextAt(v, 1), TextAt(v, 5))
  }

  function RemainingIn(v: Json): Remaining {
    Remaining(Identity(KindNamed(TextAt(v, 1)), TextAt(v, 4), TextAt(v, 3)), OptionalAt(v, 6), TextAt(v, 2), ReasonNamed(TextAt(v, 5)))
  }

  function RemainingsIn(v: Json): seq<Remaining> {
    if v.Arr? then seq(|v.items|, i requires 0 <= i < |v.items| => RemainingIn(v.items[i])) else []
  }

  function ReceiptIn(v: Json): Receipt {
    Receipt(TextAt(v, 0), CaseIn(TextAt(v, 2)), TextAt(v, 1), if TextAt(v, 6) == "CLEAN" then CLEAN else CLEANUP_PENDING,
            RemainingsIn(At(v, 4)), TextAt(v, 3))
  }

  function ResourceIn(v: Json): Resource {
    Resource(NumberAt(v, 0), Identity(KindNamed(TextAt(v, 2)), TextAt(v, 5), TextAt(v, 4)), TextAt(v, 3), OptionalAt(v, 7), OptionalAt(v, 6))
  }

  function RowIn(v: Json): Row {
    var more := if v.Obj? && |v.members| == 8 then 1 else 0;
    Row(NumberAt(v, 5 + more), TextAt(v, 4), BindingIn(At(v, 0)), StateNamed(TextAt(v, 6 + more)),
        if At(v, 3).Null? then None else Some(CaseIn(TextAt(v, 3))), TextAt(v, 2),
        if At(v, 1).Null? then None else Some(ReceiptIn(At(v, 1))),
        if more == 0 then None else Some(ResourceIn(At(v, 5))))
  }

  /** The row a document holds: it must have exactly the fields, types and names of a ledger row. */
  function RowOf(v: Json): (r: Option<Row>)
    ensures r.Some? ==> RowJson(r.value) == v
  {
    if RowJson(RowIn(v)) == v then Some(RowIn(v)) else None
  }

  // ---------------------------------------------------------------- every row is read back

  lemma {:induction false} BindingRead(b: Binding)
    ensures BindingIn(BindingJson(b)) == b
  {
  }

  lemma {:induction false} RemainingRead(r: Remaining)
    ensures RemainingIn(RemainingJson(r)) == r
  {
  }

  lemma {:induction false} ReceiptRead(r: Receipt)
    ensures ReceiptIn(ReceiptJson(r)) == r
  {
    CaseOfName(r.operation);
    var items := RemainingsIn(Arr(RemainingItems(r.remaining)));
    forall i | 0 <= i < |r.remaining|
      ensures items[i] == r.remaining[i]
    {
      RemainingRead(r.remaining[i]);
    }
    assert items == r.remaining;
  }

  lemma {:induction false} ResourceRead(r: Resource)
    ensures ResourceIn(ResourceJson(r)) == r
  {
  }

  lemma {:induction false} StateRead(s: RowState)
    ensures StateNamed(StateName(s)) == s
  {
  }

  /** The fields of a printed row sit at fixed places; `more` is 1 when the row has a resource. */
  lemma {:induction false} FieldsOf(r: Row, v: Json, more: nat)
    requires v == RowJson(r) && more == if r.resource.Some? then 1 else 0
    ensures v.Obj? && |v.members| == 7 + more
    ensures At(v, 0) == BindingJson(r.binding) && At(v, 2) == Str(r.observedAt) && At(v, 4) == Str(r.previousDigest)
    ensures At(v, 1) == match r.cleanup case None => Null case Some(c) => ReceiptJson(c)
    ensures At(v, 3) == match r.operation case None => Null case Some(c) => Str(CaseName(c))
    ensures At(v, 5 + more) == Int(r.sequence) && At(v, 6 + more) == Str(StateName(r.state))
    ensures r.resource.Some? ==> At(v, 5) == ResourceJson(r.resource.value)
  {
  }

  lemma {:induction false} OperationRead(o: Option<Case>)
    ensures var x := match o case None => Null case Some(c) => Str(CaseName(c));
            (if x.Null? then None else Some(CaseIn(TextIn(x)))) == o
  {
    if o.Some? {
      CaseOfName(o.value);
    }
  }

  lemma {:induction false} RowRead(r: Row)
    ensures RowOf(RowJson(r)) == Some(r)
  {
    var v, more := RowJson(r), if r.resource.Some? then 1 else 0;
    FieldsOf(r, v, more);
    BindingRead(r.binding);
    StateRead(r.state);
    OperationRead(r.operation);
    if r.cleanup.Some? {
      ReceiptRead(r.cleanup.value);
    }
    if r.resource.Some? {
      ResourceRead(r.resource.value);
    }
    RowInFields(r, v, more);
  }

  lemma {:induction false} RowInFields(r: Row, v: Json, more: nat)
    requires more == (if r.resource.Some? then 1 else 0) && v.Obj? && |v.members| == 7 + more
    requires NumberAt(v, 5 + more) == r.sequence && TextAt(v, 4) == r.previousDigest && BindingIn(At(v, 0)) == r.binding
    requires StateNamed(TextAt(v, 6 + more)) == r.state && TextAt(v, 2) == r.observedAt
    requires (if At(v, 3).Null? then None else Some(CaseIn(TextAt(v, 3)))) == r.operation
    requires (if At(v, 1).Null? then None else Some(ReceiptIn(At(v, 1)))) == r.cleanup
    requires r.resource.Some? ==> ResourceIn(At(v, 5)) == r.resource.value
    ensures RowIn(v) == r
  {
  }

  // ---------------------------------------------------------------- every row prints in key order

  lemma {:induction false} BindingKeys()
    ensures Below("capacityNonce", "commandSetDigest") && Below("endpointId", "environmentId")
    ensures Below("packetDigest", "profileDigest") && Below("releaseDigest", "runNonce")
  {
    BelowAt("capacityNonce", "commandSetDigest", 1);
    BelowAt("endpointId", "environmentId", 2);
    BelowAt("packetDigest", "profileDigest", 1);
    BelowAt("releaseDigest", "runNonce", 1);
  }

  lemma {:induction false} BelowFirst(a: string, b: string)
    requires a != "" && b != "" && a[0] < b[0]
    ensures Below(a, b)
  {
  }

  lemma {:induction false} JoinIncreasing(a: seq<Member>, b: seq<Member>)
    requires a != [] && b != [] && Increasing(a) && Increasing(b) && Below(a[|a| - 1].key, b[0].key)
    ensures Increasing(a + b)
  {
  }

  lemma {:induction false} TextsNormal(members: seq<Member>)
    requires Increasing(members) && forall i :: 0 <= i < |members| ==> members[i].value.Str?
    ensures Normal(Obj(members))
  {
  }

  function BindingFront(b: Binding): seq<Member> {
    [ Member("capacityNonce", Str(b.capacityNonce)), Member("commandSetDigest", Str(b.commandSetDigest)),
      Member("endpointId", Str(b.endpointId)), Member("environmentId", Str(b.environmentId))]
  }

  function BindingBack(b: Binding): seq<Member> {
    [ Member("packetDigest", Str(b.packetDigest)), Member("profileDigest", Str(b.profileDigest)),
      Member("releaseDigest", Str(b.releaseDigest)), Member("runNonce", Str(b.runNonce)), Member("tenantId", Str(b.tenantId))]
  }

  lemma {:induction false} FrontIncreasing(b: Binding)
    ensures Increasing(BindingFront(b))
  {
    BindingKeys();
    BelowFirst("commandSetDigest", "endpointId");
    var m := BindingFront(b);
    assert m[0].key == "capacityNonce" && m[1].key == "commandSetDigest" && m[2].key == "endpointId" && m[3].key == "environmentId";
  }

  lemma {:induction false} BackIncreasing(b: Binding)
    ensures Increasing(BindingBack(b))
  {
    BindingKeys();
    BelowFirst("profileDigest", "releaseDigest");
    BelowFirst("runNonce", "tenantId");
    var m := BindingBack(b);
    assert m[0].key == "packetDigest" && m[1].key == "profileDigest" && m[2].key == "releaseDigest";
    assert m[3].key == "runNonce" && m[4].key == "tenantId";
  }

  lemma {:induction false} BindingNormal(b: Binding)
    ensures Normal(BindingJson(b))
  {
    FrontIncreasing(b);
    BackIncreasing(b);
    BelowFirst("environmentId", "packetDigest");
    JoinIncreasing(BindingFront(b), BindingBack(b));
    assert BindingJson(b).members == BindingFront(b) + BindingBack(b);
    TextsNormal(BindingFront(b) + BindingBack(b));
  }

  lemma {:induction false} NameBelowNamespace()
    ensures Below("name", "namespace")
  {
    var a, b := "name", "namespace";
    assert a[1..] == "ame" && b[1..] == "amespace";
    assert a[1..][1..] == "me" && b[1..][1..] == "mespace";
    assert a[1..][1..][1..] == "e" && b[1..][1..][1..] == "espace";
    assert "e"[1..] == "" && "espace"[1..] == "space";
  }

  lemma {:induction false} RemainingNormal(r: Remaining)
    ensures Normal(RemainingJson(r))
  {
    NameBelowNamespace();
    var m := RemainingJson(r).members;
    assert m[0].key == "apiVersion" && m[1].key == "kind" && m[2].key == "manifestDigest";
    assert m[3].key == "name" && m[4].key == "namespace" && m[5].key == "reasonCode" && m[6].key == "uid";
  }

  lemma {:induction false} ReceiptKeys(r: Receipt)
    requires Below("observedAt", "operation") && Below("schemaVersion", "state")
    ensures Increasing(ReceiptJson(r).members)
  {
    var m := ReceiptJson(r).members;
    assert m[0].key == "bindingDigest" && m[1].key == "observedAt" && m[2].key == "operation";
    assert m[3].key == "previousReceiptDigest" && m[4].key == "remainingResources" && m[5].key == "schemaVersion" && m[6].key == "state";
  }

  lemma {:induction false} ReceiptNormal(r: Receipt)
    ensures Normal(ReceiptJson(r))
  {
    BelowAt("observedAt", "operation", 1);
    BelowAt("schemaVersion", "state", 1);
    ReceiptKeys(r);
    ItemsNormal(r.remaining);
  }

  lemma {:induction false} ItemsNormal(rows: seq<Remaining>)
    ensures Normal(Arr(RemainingItems(rows)))
  {
    forall i | 0 <= i < |rows|
      ensures Normal(RemainingJson(rows[i]))
    {
      RemainingNormal(rows[i]);
    }
  }

  lemma {:induction false} ResourceNormal(r: Resource)
    ensures Normal(ResourceJson(r))
  {
    BelowAt("actionId", "apiVersion", 1);
    NameBelowNamespace();
    ResourceIncreasing(r);
  }

  lemma {:induction false} ResourceKeys(r: Resource)
    requires Below("actionId", "apiVersion") && Below("name", "namespace")
    ensures Increasing(ResourceJson(r).members)
  {
    var m := ResourceJson(r).members;
    assert m[0].key == "actionId" && m[1].key == "apiVersion" && m[2].key == "kind" && m[3].key == "manifestDigest";
    assert m[4].key == "name" && m[5].key == "namespace" && m[6].key == "resourceVersion" && m[7].key == "uid";
  }

  lemma {:induction false} ResourceIncreasing(r: Resource)
    requires Below("actionId", "apiVersion") && Below("name", "namespace")
    ensures Normal(ResourceJson(r))
  {
    ResourceKeys(r);
  }

  lemma {:induction false} RowKeysIncreasing(r: Row)
    ensures Increasing(RowJson(r).members)
  {
    BelowAt("observedAt", "operation", 1);
    BelowAt("sequence", "state", 1);
    var m := RowJson(r).members;
    assert m[0].key == "binding" && m[1].key == "cleanup" && m[2].key == "observedAt" && m[3].key == "operation";
    assert m[4].key == "previousDigest";
    if r.resource.Some? {
      assert m[5].key == "resource" && m[6].key == "sequence" && m[7].key == "state";
    } else {
      assert m[5].key == "sequence" && m[6].key == "state";
    }
  }

  lemma {:induction false} RowNormal(r: Row)
    ensures Normal(RowJson(r))
  {
    RowKeysIncreasing(r);
    BindingNormal(r.binding);
    if r.cleanup.Some? {
      ReceiptNormal(r.cleanup.value);
    }
    if r.resource.Some? {
      ResourceNormal(r.resource.value);
    }
  }
}
