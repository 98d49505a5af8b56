/** What a valid profile says of each of its manifests, by the names of their members. */
module ProfileRules {
  import opened Prelude
  import opened CanonicalJson
  import opened Digests
  import opened Digits
  import opened Cases
  import opened AdmissionLedger
  import opened Profiles

  // ---------------------------------------------------------------- printed quantities

  /** A quantity is the printed form of a positive number, with a bound on its digits. */
  lemma {:induction false} AmountExactly(t: string, more: nat)
    ensures IsAmount(t, more) <==> exists n: nat :: n > 0 && t == Decimal(n) && |Decimal(n)| <= more + 1
    ensures IsAmount(t, more) ==> Amount(t) > 0 && t == Decimal(Amount(t))
  {
    if IsAmount(t, more) {
      DecimalOfNumber(t);
      assert t != "0";
    }
    forall n: nat | n > 0 && t == Decimal(n) && |Decimal(n)| <= more + 1
      ensures IsAmount(t, more)
    {
      DecimalRead(n);
    }
  }

  lemma {:induction false} AmountPrinted(n: nat)
    ensures Amount(Decimal(n)) == n
    ensures CpuAmount(Decimal(n) + "m") == n
  {
    DecimalRead(n);
    var t := Decimal(n) + "m";
    assert t[..|t| - 1] == Decimal(n);
  }

  lemma {:induction false} CpuPrinted(t: string) returns (n: nat)
    requires IsCpu(t)
    ensures n > 0 && t == Decimal(n) + "m" && |Decimal(n)| <= 7
  {
    var front := t[..|t| - 1];
    AmountExactly(front, 6);
    n := Amount(front);
    assert t == front + [t[|t| - 1]];
  }

  /** A manifest of a kind takes one object of that kind and, for a Pod, the three numbers its limits print; nothing else. */
  predicate Takes(manifest: Json, cpu: nat, memory: nat, storage: nat) {
    var pod := KindText(manifest) == "Pod";
    && (forall u: Unit :: Share(manifest, u) ==
          match u
          case PODS => if pod then 1 else 0
          case CONFIG_MAPS => if KindText(manifest) == "ConfigMap" then 1 else 0
          case SERVICES => if KindText(manifest) == "Service" then 1 else 0
          case CPU_MILLIS => if pod then cpu else 0
          case MEMORY_BYTES => if pod then memory else 0
          case EPHEMERAL_STORAGE_BYTES => if pod then storage else 0)
  }

  /** The limits of a Pod's one container, as texts. */
  predicate Limits(manifest: Json, cpu: string, memory: string, storage: string) {
    var limits := Get(Get(Container(manifest), "resources"), "limits");
    Get(limits, "cpu") == Str(cpu) && Get(limits, "memory") == Str(memory) && Get(limits, "ephemeral-storage") == Str(storage)
  }

  /** Printed limits count for what they print. */
  lemma {:induction false} PrintedLimitsCount(manifest: Json, cpu: nat, memory: nat, storage: nat)
    requires KindText(manifest) == "Pod" ==> Limits(manifest, Decimal(cpu) + "m", Decimal(memory), Decimal(storage))
    ensures Takes(manifest, cpu, memory, storage)
  {
    AmountPrinted(cpu);
    AmountPrinted(memory);
    AmountPrinted(storage);
  }

  /** And the limits of a well-shaped Pod are printed: millicores of up to seven digits, bytes of up to fifteen. */
  lemma {:induction false} LimitsArePrinted(manifest: Json) returns (cpu: nat, memory: nat, storage: nat)
    requires ManifestShape(manifest) && KindText(manifest) == "Pod"
    ensures cpu > 0 && memory > 0 && storage > 0 && |Decimal(cpu)| <= 7 && |Decimal(memory)| <= 15 && |Decimal(storage)| <= 15
    ensures Limits(manifest, Decimal(cpu) + "m", Decimal(memory), Decimal(storage)) && Takes(manifest, cpu, memory, storage)
  {
    cpu := CpuPrinted(Limit(manifest, "cpu"));
    AmountExactly(Limit(manifest, "memory"), 14);
    AmountExactly(Limit(manifest, "ephemeral-storage"), 14);
    memory, storage := Amount(Limit(manifest, "memory")), Amount(Limit(manifest, "ephemeral-storage"));
    PrintedLimitsCount(manifest, cpu, memory, storage);
  }

  // ---------------------------------------------------------------- scope

  lemma {:induction false} LastPieceIs(prefix: string, account: string)
    requires ':' !in account
    ensures LastPiece(prefix + ":" + account) == account
    decreases |prefix|
  {
    var t := prefix + ":" + account;
    assert t[|prefix|] == ':';
    if prefix == "" {
      assert t[1..] == account;
    } else {
      assert t[1..] == prefix[1..] + ":" + account;
      LastPieceIs(prefix[1..], account);
    }
  }

  /** The labels of one tenant and one run, and no others. */
  predicate Labelled(profile: Json, labels: Json) {
    var scope := Get(profile, "binding");
    labels == Obj([Member("planeon.ai/run-nonce", Get(scope, "runNonce")), Member("planeon.ai/tenant-id", Get(scope, "tenantId"))])
  }

  /** One of the objects that were there before. */
  ghost predicate Preexists(profile: Json, kind: string, namespace: string, name: string) {
    exists ref :: ref in Items(Get(Get(profile, "capacityEntries"), "preexistingResourceRefs"))
                  && Get(ref, "apiVersion") == Str("v1") && Get(ref, "kind") == Str(kind)
                  && Get(ref, "namespace") == Str(namespace) && Get(ref, "name") == Str(name)
  }

  lemma {:induction false} TakesOverExactly(profile: Json, manifest: Json)
    ensures TakesOver(profile, manifest) <==> Preexists(profile, KindText(manifest), NamespaceOf(manifest), NameOf(manifest))
  {
  }

  /**
    Every manifest of a valid profile is the text its digest names, stands in the profile's namespace with the labels of
    its tenant and run, takes over nothing that was there, and runs as the profile's service account or selects those labels.
   */
  lemma {:induction false} ManifestsInScope(w: Primitives, profile: Json, row: Json, prefix: string, account: string)
    requires ValidProfile(w, profile) && row in Resources(profile)
    requires Get(Get(profile, "binding"), "serviceAccountSubject") == Str(prefix + ":" + account) && ':' !in account
    ensures var manifest := Get(row, "manifest");
            var meta, spec := Get(manifest, "metadata"), Get(manifest, "spec");
            && Text(Get(row, "manifestDigest")) == w.hash(Encode(manifest)) && |Encode(manifest)| <= 16384
            && Text(Get(meta, "namespace")) == Text(Get(Get(profile, "binding"), "namespace")) && Labelled(profile, Get(meta, "labels"))
            && !Preexists(profile, Text(Get(manifest, "kind")), Text(Get(meta, "namespace")), Text(Get(meta, "name")))
            && (Get(manifest, "kind") == Str("Pod") ==> Text(Get(spec, "serviceAccountName")) == account)
            && (Get(manifest, "kind") == Str("Service") ==> Labelled(profile, Get(spec, "selector")))
  {
    assert RowValid(w, profile, row);
    LastPieceIs(prefix, account);
    TakesOverExactly(profile, ManifestOf(row));
  }

  // ---------------------------------------------------------------- ownership

  lemma {:induction false} DistinctConcat(a: seq<string>, b: seq<string>)
    ensures DistinctTexts(a + b) <==> DistinctTexts(a) && DistinctTexts(b) && forall d :: d in a ==> d !in b
  {
    var all := a + b;
    assert (forall i :: 0 <= i < |a| ==> all[i] == a[i]) && forall j :: 0 <= j < |b| ==> all[|a| + j] == b[j];
    if DistinctTexts(all) {
      forall i, j | 0 <= i < |a| && 0 <= j < |b|
        ensures a[i] != b[j]
      {
        assert all[i] != all[|a| + j];
      }
      forall i, j | 0 <= i < j < |b|
        ensures b[i] != b[j]
      {
        assert all[|a| + i] != all[|a| + j];
      }
    }
    if DistinctTexts(a) && DistinctTexts(b) && forall d :: d in a ==> d !in b {
      forall i, j | 0 <= i < j < |all|
        ensures all[i] != all[j]
      {
        if i < |a| <= j {
          assert a[i] in a && b[j - |a|] in b;
        }
      }
    }
  }

  ghost predicate AssignedIn(broker: BrokerBinding, cases: seq<Case>, d: string)
    requires EveryCaseListed(broker)
  {
    exists c :: c in cases && d in broker.caseResourceDigests[c]
  }

  lemma {:induction false} AssignedExactly(broker: BrokerBinding, cases: seq<Case>, d: string)
    requires EveryCaseListed(broker)
    ensures d in AssignedTo(broker, cases) <==> AssignedIn(broker, cases, d)
  {
    if cases != [] {
      AssignedExactly(broker, cases[1..], d);
      if AssignedIn(broker, cases[1..], d) {
        var c :| c in cases[1..] && d in broker.caseResourceDigests[c];
        assert c in cases;
      }
    }
  }

  /** No digest twice in a case, or in two of some cases. */
  ghost predicate OneOwner(broker: BrokerBinding, cases: seq<Case>)
    requires EveryCaseListed(broker)
  {
    && (forall c :: c in cases ==> DistinctTexts(broker.caseResourceDigests[c]))
    && (forall c, e, d :: c in cases && e in cases && c != e && d in broker.caseResourceDigests[c] ==> d !in broker.caseResourceDigests[e])
  }

  lemma {:induction false} OneOwnerFirst(broker: BrokerBinding, cases: seq<Case>)
    requires EveryCaseListed(broker) && cases != [] && Distinct(cases)
    ensures OneOwner(broker, cases) <==>
            && DistinctTexts(broker.caseResourceDigests[cases[0]]) && OneOwner(broker, cases[1..])
            && forall d :: d in broker.caseResourceDigests[cases[0]] ==> !AssignedIn(broker, cases[1..], d)
  {
    var rest := cases[1..];
    assert cases[0] !in rest;
    assert forall c :: c in cases <==> c == cases[0] || c in rest;
  }

  lemma {:induction false} AssignedDistinct(broker: BrokerBinding, cases: seq<Case>)
    requires EveryCaseListed(broker) && Distinct(cases)
    ensures DistinctTexts(AssignedTo(broker, cases)) <==> OneOwner(broker, cases)
  {
    if cases != [] {
      AssignedDistinct(broker, cases[1..]);
      DistinctConcat(broker.caseResourceDigests[cases[0]], AssignedTo(broker, cases[1..]));
      OneOwnerFirst(broker, cases);
      forall d
        ensures d in AssignedTo(broker, cases[1..]) <==> AssignedIn(broker, cases[1..], d)
      {
        AssignedExactly(broker, cases[1..], d);
      }
    }
  }

  /** A digest is listed by some case. */
  ghost predicate Assigned?(broker: BrokerBinding, d: string)
    requires EveryCaseListed(broker)
  {
    exists c: Case :: d in broker.caseResourceDigests[c]
  }

  /** A digest stands in some row. */
  ghost predicate InRow(profile: Json, d: string) {
    exists row :: row in Resources(profile) && DigestOf(row) == d
  }

  lemma {:induction false} CasesDiffer()
    ensures Distinct(CASES)
  {
  }

  lemma {:induction false} RowDigestsExactly(profile: Json, d: string)
    ensures d in ResourceDigests(Resources(profile)) <==> InRow(profile, d)
  {
    if InRow(profile, d) {
      var row :| row in Resources(profile) && DigestOf(row) == d;
      var i :| 0 <= i < |Resources(profile)| && Resources(profile)[i] == row;
      assert DigestOf(Resources(profile)[i]) == d;
    }
  }

  /**
    A case owns a digest if and only if it lists it, no digest is listed twice, in one case or in two, and together
    the ten cases list exactly the digests of the profile's rows.
   */
  lemma {:induction false} OwnsExactly(broker: BrokerBinding, profile: Json, operation: Case, digest: string)
    requires EveryCaseListed(broker)
    ensures Owns(broker, profile, operation, digest) <==>
            && digest in broker.caseResourceDigests[operation] && OneOwner(broker, CASES)
            && forall d :: Assigned?(broker, d) <==> InRow(profile, d)
  {
    forall c: Case
      ensures c in CASES
    {
      IsCase(c);
    }
    CasesDiffer();
    AssignedDistinct(broker, CASES);
    forall d
      ensures d in AssignedTo(broker, CASES) <==> Assigned?(broker, d)
      ensures d in ResourceDigests(Resources(profile)) <==> InRow(profile, d)
    {
      AssignedExactly(broker, CASES, d);
      RowDigestsExactly(profile, d);
    }
    SameDigests(broker, profile);
  }

  lemma {:induction false} SameDigests(broker: BrokerBinding, profile: Json)
    requires EveryCaseListed(broker)
    ensures (set d | d in AssignedTo(broker, CASES)) == ResourceDigests(Resources(profile)) <==>
            forall d :: d in AssignedTo(broker, CASES) <==> d in ResourceDigests(Resources(profile))
  {
    var owned := set d | d in AssignedTo(broker, CASES);
    assert forall d :: d in owned <==> d in AssignedTo(broker, CASES);
    if forall d :: d in AssignedTo(broker, CASES) <==> d in ResourceDigests(Resources(profile)) {
      assert owned == ResourceDigests(Resources(profile));
    }
  }

  // ---------------------------------------------------------------- the derived record

  /** Reservation, profile and broker binding speak of the same run. */
  predicate SameRun(w: Primitives, b: Binding, profile: Json, broker: BrokerBinding) {
    var scope := Get(profile, "binding");
    && b.profileDigest == w.hash(Encode(profile)) == broker.profileDigest
    && Get(scope, "tenantId") == Str(b.tenantId) && Get(scope, "environmentId") == Str(b.environmentId)
    && Get(scope, "runNonce") == Str(b.runNonce) && Get(scope, "capacityNonce") == Str(b.capacityNonce)
    && Get(scope, "endpointId") == Str(b.endpointId)
  }

  /** A case may create what it owns, in a valid profile of its own run. */
  ghost predicate MayCreate(w: Primitives, b: Binding, operation: Case, profile: Json, broker: BrokerBinding, action: Action) {
    && |Encode(BindingJson(b))| <= 16384 && ValidProfile(w, profile) && SameRun(w, b, profile, broker)
    && action.verb == CREATE && 1 <= action.actionId <= 256 && IsDigest(action.manifestDigest)
    && EveryCaseListed(broker) && action.manifestDigest in broker.caseResourceDigests[operation]
    && OneOwner(broker, CASES) && forall d :: Assigned?(broker, d) <==> InRow(profile, d)
  }

  /** The checks of `_create_record` before it looks at an object. */
  predicate Eligible(w: Primitives, b: Binding, operation: Case, profile: Json, broker: BrokerBinding, action: Action) {
    && |Encode(BindingJson(b))| <= 16384 && ValidProfile(w, profile) && EveryCaseListed(broker)
    && action.verb == CREATE && 1 <= action.actionId <= 256 && IsDigest(action.manifestDigest)
    && b.profileDigest == w.Digest(profile) && broker.profileDigest == w.Digest(profile) && SameScope(b, profile)
    && Owns(broker, profile, operation, action.manifestDigest)
  }

  lemma {:induction false} EligibleExactly(w: Primitives, b: Binding, operation: Case, profile: Json, broker: BrokerBinding, action: Action)
    ensures Eligible(w, b, operation, profile, broker, action) <==> MayCreate(w, b, operation, profile, broker, action)
  {
    if EveryCaseListed(broker) {
      OwnsExactly(broker, profile, operation, action.manifestDigest);
    }
  }

  /** What the manifest of the action makes of an object, if there is one. */
  predicate Recognised(w: Primitives, profile: Json, action: Action, observed: Option<Json>) {
    observed.Some? ==>
      match RowFor(Resources(profile), action.manifestDigest)
      case None => false
      case Some(row) => ObservedIdentity(w, observed.value, ManifestOf(row)).Some?
  }

  lemma {:induction false} RecordUnfolds(w: Primitives, b: Binding, operation: Case, profile: Json, broker: BrokerBinding, action: Action, observed: Option<Json>)
    ensures CreateRecord(w, b, operation, profile, broker, action, observed).Some? <==>
            && Eligible(w, b, operation, profile, broker, action)
            && RowFor(Resources(profile), action.manifestDigest).Some? && Recognised(w, profile, action, observed)
  {
  }

  /** An intent has a record if and only if the case may create; a confirmation needs, besides, the object of that manifest. */
  lemma {:induction false} RecordExactly(w: Primitives, b: Binding, operation: Case, profile: Json, broker: BrokerBinding, action: Action, observed: Option<Json>)
    ensures CreateRecord(w, b, operation, profile, broker, action, observed).Some? <==>
            MayCreate(w, b, operation, profile, broker, action) && Recognised(w, profile, action, observed)
  {
    RecordUnfolds(w, b, operation, profile, broker, action, observed);
    EligibleExactly(w, b, operation, profile, broker, action);
    if Eligible(w, b, operation, profile, broker, action) {
      OwnedHasManifest(broker, profile, operation, action.manifestDigest);
    }
  }
}
