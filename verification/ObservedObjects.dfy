/** What the API server may add to a manifest it created: exactly the objects that are recognised. */
module ObservedObjects {
  import opened Prelude
  import opened CanonicalJson
  import opened Digests
  import opened AdmissionLedger
  import opened Profiles

  /** A new member at its place in key order. */
  function Put(members: seq<Member>, m: Member): seq<Member> {
    if members == [] || Below(m.key, members[0].key) then [m] + members
    else [members[0]] + Put(members[1..], m)
  }

  predicate HasKey(members: seq<Member>, key: string) {
    exists i :: 0 <= i < |members| && members[i].key == key
  }

  /** What the server assigned; the creation time may be missing. */
  datatype Assigned = Assigned(uid: string, version: string, created: Option<Json>, address: string)

  function Timed(meta: seq<Member>, created: Option<Json>): seq<Member> {
    match created case None => meta case Some(v) => Put(meta, Member("creationTimestamp", v))
  }

  function AssignedMeta(meta: seq<Member>, a: Assigned): seq<Member> {
    Put(Put(Timed(meta, a.created), Member("resourceVersion", Str(a.version))), Member("uid", Str(a.uid)))
  }

  function AssignedMember(m: Member, a: Assigned, service: bool): Member {
    if m.key == "metadata" && m.value.Obj? then Member(m.key, Obj(AssignedMeta(m.value.members, a)))
    else if m.key == "spec" && m.value.Obj? && service then Member(m.key, Obj(Put(m.value.members, Member("clusterIP", Str(a.address)))))
    else m
  }

  function AssignedMembers(members: seq<Member>, a: Assigned, service: bool): seq<Member> {
    if members == [] then [] else [AssignedMember(members[0], a, service)] + AssignedMembers(members[1..], a, service)
  }

  /** The object the server returns for a manifest. */
  function AsCreated(manifest: Json, a: Assigned): Json {
    match manifest
    case Obj(members) => Obj(AssignedMembers(members, a, KindText(manifest) == "Service"))
    case _ => manifest
  }

  /** A manifest has no member the server assigns. */
  predicate Unassigned(members: seq<Member>) {
    forall i :: 0 <= i < |members| && members[i].value.Obj? ==>
      && (members[i].key == "metadata" ==>
            !HasKey(members[i].value.members, "uid") && !HasKey(members[i].value.members, "resourceVersion")
            && !HasKey(members[i].value.members, "creationTimestamp"))
      && (members[i].key == "spec" ==> !HasKey(members[i].value.members, "clusterIP"))
  }

  lemma {:induction false} PutKeys(members: seq<Member>, m: Member, key: string)
    ensures HasKey(Put(members, m), key) <==> key == m.key || HasKey(members, key)
  {
    var more := Put(members, m);
    if members == [] || Below(m.key, members[0].key) {
      assert more[0] == m && forall i :: 0 <= i < |members| ==> more[i + 1] == members[i];
    } else {
      PutKeys(members[1..], m, key);
      FirstKey(members, key);
      FirstKey(more, key);
      assert more[0] == members[0] && more[1..] == Put(members[1..], m);
    }
  }

  lemma {:induction false} FirstKey(members: seq<Member>, key: string)
    requires members != []
    ensures HasKey(members, key) <==> members[0].key == key || HasKey(members[1..], key)
  {
    if HasKey(members, key) {
      var i :| 0 <= i < |members| && members[i].key == key;
      assert i > 0 ==> members[1..][i - 1] == members[i];
    }
    if HasKey(members[1..], key) {
      var i :| 0 <= i < |members| - 1 && members[1..][i].key == key;
      assert members[i + 1] == members[1..][i];
    }
  }

  lemma {:induction false} WithoutAbsent(members: seq<Member>, key: string)
    requires !HasKey(members, key)
    ensures Without(members, key) == members
  {
    if members != [] {
      FirstKey(members, key);
      WithoutAbsent(members[1..], key);
      assert members == [members[0]] + members[1..];
    }
  }

  lemma {:induction false} PutThenWithout(members: seq<Member>, m: Member)
    requires !HasKey(members, m.key)
    ensures Without(Put(members, m), m.key) == members
  {
    if members == [] || Below(m.key, members[0].key) {
      assert ([m] + members)[1..] == members;
      WithoutAbsent(members, m.key);
    } else {
      FirstKey(members, m.key);
      PutThenWithout(members[1..], m);
      assert Put(members, m)[1..] == Put(members[1..], m);
      assert members == [members[0]] + members[1..];
    }
  }

  lemma {:induction false} FindPut(members: seq<Member>, m: Member, key: string)
    requires !HasKey(members, m.key)
    ensures Find(Put(members, m), key) == if key == m.key then Some(m.value) else Find(members, key)
  {
    if members == [] || Below(m.key, members[0].key) {
      assert ([m] + members)[1..] == members;
    } else {
      FirstKey(members, m.key);
      FindPut(members[1..], m, key);
      assert Put(members, m)[1..] == Put(members[1..], m);
    }
  }

  /** Taking the assigned members out of the metadata undoes putting them in, and they are found there. */
  lemma {:induction false} MetaRoundTrip(meta: seq<Member>, a: Assigned)
    requires !HasKey(meta, "uid") && !HasKey(meta, "resourceVersion") && !HasKey(meta, "creationTimestamp")
    ensures Without(Without(Without(AssignedMeta(meta, a), "uid"), "resourceVersion"), "creationTimestamp") == meta
    ensures Find(AssignedMeta(meta, a), "uid") == Some(Str(a.uid)) && Find(AssignedMeta(meta, a), "resourceVersion") == Some(Str(a.version))
  {
    var one := Timed(meta, a.created);
    var two := Put(one, Member("resourceVersion", Str(a.version)));
    TimedRoundTrip(meta, a.created);
    PutKeys(one, Member("resourceVersion", Str(a.version)), "uid");
    PutThenWithout(one, Member("resourceVersion", Str(a.version)));
    PutThenWithout(two, Member("uid", Str(a.uid)));
    FindPut(two, Member("uid", Str(a.uid)), "uid");
    FindPut(two, Member("uid", Str(a.uid)), "resourceVersion");
    FindPut(one, Member("resourceVersion", Str(a.version)), "resourceVersion");
  }

  lemma {:induction false} TimedRoundTrip(meta: seq<Member>, created: Option<Json>)
    requires !HasKey(meta, "creationTimestamp")
    ensures Without(Timed(meta, created), "creationTimestamp") == meta
    ensures HasKey(Timed(meta, created), "uid") <==> HasKey(meta, "uid")
    ensures HasKey(Timed(meta, created), "resourceVersion") <==> HasKey(meta, "resourceVersion")
  {
    if created.Some? {
      PutKeys(meta, Member("creationTimestamp", created.value), "resourceVersion");
      PutKeys(meta, Member("creationTimestamp", created.value), "uid");
      PutThenWithout(meta, Member("creationTimestamp", created.value));
    } else {
      WithoutAbsent(meta, "creationTimestamp");
    }
  }

  lemma {:induction false} MemberRoundTrip(m: Member, a: Assigned, service: bool)
    requires Unassigned([m])
    ensures StrippedMembers([AssignedMember(m, a, service)], service) == [m]
  {
    assert [m][0] == m;
    var n := AssignedMember(m, a, service);
    assert [n][0] == n && [n][1..] == [];
    if m.key == "metadata" && m.value.Obj? {
      MetaRoundTrip(m.value.members, a);
    } else if m.key == "spec" && m.value.Obj? && service {
      PutThenWithout(m.value.members, Member("clusterIP", Str(a.address)));
    }
  }

  lemma {:induction false} MembersRoundTrip(members: seq<Member>, a: Assigned, service: bool)
    requires Unassigned(members)
    ensures StrippedMembers(AssignedMembers(members, a, service), service) == members
  {
    if members != [] {
      assert [members[0]][0] == members[0] && forall i :: 0 <= i < |members| - 1 ==> members[1..][i] == members[i + 1];
      MemberRoundTrip(members[0], a, service);
      MembersRoundTrip(members[1..], a, service);
      FirstStripped(AssignedMember(members[0], a, service), AssignedMembers(members[1..], a, service), service);
      assert members == [members[0]] + members[1..];
    }
  }

  lemma {:induction false} FirstStripped(m: Member, rest: seq<Member>, service: bool)
    ensures StrippedMembers([m] + rest, service) == StrippedMembers([m], service) + StrippedMembers(rest, service)
  {
    assert ([m] + rest)[1..] == rest && [m][1..] == [];
    assert StrippedMembers([m], service) + StrippedMembers([], service) == StrippedMembers([m], service);
  }

  lemma {:induction false} FindAssigned(members: seq<Member>, a: Assigned, service: bool, key: string)
    ensures Find(AssignedMembers(members, a, service), key) ==
            match Find(members, key)
            case None => None
            case Some(v) => Some(AssignedMember(Member(key, v), a, service).value)
  {
    if members != [] {
      FindAssigned(members[1..], a, service, key);
      assert AssignedMembers(members, a, service)[1..] == AssignedMembers(members[1..], a, service);
    }
  }

  lemma {:induction false} FoundUnassigned(members: seq<Member>, key: string)
    requires Unassigned(members) && Find(members, key).Some?
    ensures Unassigned([Member(key, Find(members, key).value)])
  {
    if members[0].key == key {
      assert members[0] == Member(key, Find(members, key).value);
    } else {
      assert forall i :: 0 <= i < |members| - 1 ==> members[1..][i] == members[i + 1];
      FoundUnassigned(members[1..], key);
    }
  }

  /** The object the server returns for a manifest is recognised, with exactly the identity the server assigned. */
  lemma {:induction false} CreatedObjectRecognised(w: Primitives, manifest: Json, a: Assigned)
    requires manifest.Obj? && Unassigned(manifest.members) && Get(manifest, "metadata").Obj?
    requires IsUid(a.uid) && IsVersion(a.version) && |Encode(AsCreated(manifest, a))| <= MAX_MANIFEST
    requires KindText(manifest) == "Service" ==> Get(manifest, "spec").Obj? && w.address(a.address)
    ensures ObservedIdentity(w, AsCreated(manifest, a), manifest) == Some((a.uid, a.version))
  {
    var service, observed := KindText(manifest) == "Service", AsCreated(manifest, a);
    KindKept(manifest, a);
    MembersRoundTrip(manifest.members, a, service);
    MetaFound(manifest, a);
    if service {
      AddressFound(manifest, a);
    }
  }

  lemma {:induction false} KindKept(manifest: Json, a: Assigned)
    requires manifest.Obj?
    ensures KindText(AsCreated(manifest, a)) == KindText(manifest)
  {
    FindAssigned(manifest.members, a, KindText(manifest) == "Service", "kind");
    assert "kind" != "metadata" && "kind" != "spec" by {
      assert |"kind"| == |"spec"| && "kind"[0] != "spec"[0];
    }
  }

  lemma {:induction false} MetaFound(manifest: Json, a: Assigned)
    requires manifest.Obj? && Unassigned(manifest.members) && Get(manifest, "metadata").Obj?
    ensures var meta := Get(AsCreated(manifest, a), "metadata");
            Text(Get(meta, "uid")) == a.uid && Text(Get(meta, "resourceVersion")) == a.version
  {
    FindAssigned(manifest.members, a, KindText(manifest) == "Service", "metadata");
    FoundUnassigned(manifest.members, "metadata");
    assert [Member("metadata", Get(manifest, "metadata"))][0].key == "metadata";
    MetaRoundTrip(Get(manifest, "metadata").members, a);
  }

  lemma {:induction false} AddressFound(manifest: Json, a: Assigned)
    requires manifest.Obj? && Unassigned(manifest.members) && KindText(manifest) == "Service" && Get(manifest, "spec").Obj?
    ensures Get(Get(AsCreated(manifest, a), "spec"), "clusterIP") == Str(a.address)
  {
    FindAssigned(manifest.members, a, true, "spec");
    FoundUnassigned(manifest.members, "spec");
    assert [Member("spec", Get(manifest, "spec"))][0].key == "spec";
    FindPut(Get(manifest, "spec").members, Member("clusterIP", Str(a.address)), "clusterIP");
  }

  // ---------------------------------------------------------------- and nothing else

  predicate Ordered(members: seq<Member>) {
    forall i, j :: 0 <= i < j < |members| ==> Below(members[i].key, members[j].key)
  }

  lemma {:induction false} BelowChain(a: string, b: string, c: string)
    requires Below(a, b) && Below(b, c)
    ensures Below(a, c)
  {
    if a != "" && a[0] == b[0] == c[0] {
      BelowChain(a[1..], b[1..], c[1..]);
    }
  }

  lemma {:induction false} BelowOneWay(a: string, b: string)
    requires Below(a, b)
    ensures !Below(b, a) && a != b
  {
    if a != "" && a[0] == b[0] {
      BelowOneWay(a[1..], b[1..]);
    }
  }

  lemma {:induction false} IncreasingOrdered(members: seq<Member>)
    requires Increasing(members)
    ensures Ordered(members)
  {
    if members != [] {
      var before, n := members[..|members| - 1], |members| - 1;
      IncreasingOrdered(before);
      forall i | 0 <= i < n
        ensures Below(members[i].key, members[n].key)
      {
        if i < n - 1 {
          assert before[i] == members[i] && before[n - 1] == members[n - 1];
          BelowChain(members[i].key, members[n - 1].key, members[n].key);
        }
      }
      assert forall i :: 0 <= i < n ==> before[i] == members[i];
    }
  }

  lemma {:induction false} RestOrdered(members: seq<Member>)
    requires members != [] && Ordered(members)
    ensures Ordered(members[1..]) && !HasKey(members[1..], members[0].key)
    ensures forall m :: m in members[1..] ==> Below(members[0].key, m.key)
  {
    forall m | m in members[1..]
      ensures Below(members[0].key, m.key) && m.key != members[0].key
    {
      var i :| 0 <= i < |members| - 1 && members[1..][i] == m;
      assert members[i + 1] == m;
      BelowOneWay(members[0].key, m.key);
    }
  }

  lemma {:induction false} FindOrNot(members: seq<Member>, key: string)
    ensures Find(members, key).Some? <==> HasKey(members, key)
    ensures Find(members, key).Some? ==> Member(key, Find(members, key).value) in members
  {
    if members != [] {
      FirstKey(members, key);
      FindOrNot(members[1..], key);
    }
  }

  lemma {:induction false} FindWithout(members: seq<Member>, key: string, other: string)
    requires other != key
    ensures Find(Without(members, key), other) == Find(members, other)
  {
    if members != [] {
      FindWithout(members[1..], key, other);
      assert members[0].key != key ==> ([members[0]] + Without(members[1..], key))[1..] == Without(members[1..], key);
    }
  }

  lemma {:induction false} WithoutWithin(members: seq<Member>, key: string)
    ensures forall m :: m in Without(members, key) ==> m in members
  {
    if members != [] {
      WithoutWithin(members[1..], key);
    }
  }

  lemma {:induction false} WithoutOrdered(members: seq<Member>, key: string)
    requires Ordered(members)
    ensures Ordered(Without(members, key))
  {
    if members != [] {
      RestOrdered(members);
      WithoutOrdered(members[1..], key);
      WithoutWithin(members[1..], key);
      var rest := Without(members[1..], key);
      assert forall i :: 0 <= i < |rest| ==> rest[i] in members[1..];
    }
  }

  /** In an ordered object putting back what was taken out undoes it. */
  lemma {:induction false} WithoutThenPut(members: seq<Member>, key: string)
    requires Ordered(members) && Find(members, key).Some?
    ensures Put(Without(members, key), Member(key, Find(members, key).value)) == members
  {
    RestOrdered(members);
    assert members == [members[0]] + members[1..];
    if members[0].key == key {
      WithoutAbsent(members[1..], key);
      assert members[1..] != [] ==> members[1..][0] in members[1..];
    } else {
      WithoutThenPut(members[1..], key);
      FindOrNot(members[1..], key);
      BelowOneWay(members[0].key, key);
      var rest := Without(members[1..], key);
      assert ([members[0]] + rest)[1..] == rest;
    }
  }

  /** What the server assigned, read off the metadata of an object. */
  function ReadOff(meta: seq<Member>, address: string): Assigned {
    Assigned(Text(Get(Obj(meta), "uid")), Text(Get(Obj(meta), "resourceVersion")), Find(meta, "creationTimestamp"), address)
  }

  lemma {:induction false} MetaBack(meta: seq<Member>, address: string)
    requires Ordered(meta) && Get(Obj(meta), "uid").Str? && Get(Obj(meta), "resourceVersion").Str?
    ensures AssignedMeta(Without(Without(Without(meta, "uid"), "resourceVersion"), "creationTimestamp"), ReadOff(meta, address)) == meta
  {
    var one := Without(meta, "uid");
    var two := Without(one, "resourceVersion");
    WithoutOrdered(meta, "uid");
    WithoutOrdered(one, "resourceVersion");
    FindWithout(meta, "uid", "resourceVersion");
    FindWithout(meta, "uid", "creationTimestamp");
    FindWithout(one, "resourceVersion", "creationTimestamp");
    TimedBack(two);
    WithoutThenPut(one, "resourceVersion");
    WithoutThenPut(meta, "uid");
  }

  lemma {:induction false} TimedBack(meta: seq<Member>)
    requires Ordered(meta)
    ensures Timed(Without(meta, "creationTimestamp"), Find(meta, "creationTimestamp")) == meta
  {
    if Find(meta, "creationTimestamp").Some? {
      WithoutThenPut(meta, "creationTimestamp");
    } else {
      FindOrNot(meta, "creationTimestamp");
      WithoutAbsent(meta, "creationTimestamp");
    }
  }

  /** A member that assigning gives back after stripping. */
  predicate GivesBack(m: Member, a: Assigned, service: bool) {
    && (m.key == "metadata" && m.value.Obj? ==>
          AssignedMeta(Without(Without(Without(m.value.members, "uid"), "resourceVersion"), "creationTimestamp"), a) == m.value.members)
    && (m.key == "spec" && m.value.Obj? && service ==>
          Put(Without(m.value.members, "clusterIP"), Member("clusterIP", Str(a.address))) == m.value.members)
  }

  lemma {:induction false} MembersBack(members: seq<Member>, a: Assigned, service: bool)
    requires forall m :: m in members ==> GivesBack(m, a, service)
    ensures AssignedMembers(StrippedMembers(members, service), a, service) == members
  {
    if members != [] {
      MembersBack(members[1..], a, service);
      assert GivesBack(members[0], a, service);
      var m, rest := StrippedMembers([members[0]], service), StrippedMembers(members[1..], service);
      FirstStripped(members[0], members[1..], service);
      assert [members[0]] + members[1..] == members;
      assert |m| == 1 && (m + rest)[0] == m[0] && (m + rest)[1..] == rest;
      assert AssignedMember(m[0], a, service) == members[0];
    }
  }

  lemma {:induction false} FindStripped(members: seq<Member>, service: bool, key: string)
    requires key != "metadata" && key != "spec"
    ensures Find(StrippedMembers(members, service), key) == Find(members, key)
  {
    if members != [] {
      FindStripped(members[1..], service, key);
      FirstStripped(members[0], members[1..], service);
      assert [members[0]] + members[1..] == members;
      var m, rest := StrippedMembers([members[0]], service), StrippedMembers(members[1..], service);
      assert |m| == 1 && (m + rest)[1..] == rest && (m + rest)[0] == m[0] && m[0].key == members[0].key;
    }
  }

  /** In an ordered object a key has one value. */
  lemma {:induction false} FoundOnce(members: seq<Member>, m: Member)
    requires Ordered(members) && m in members
    ensures Find(members, m.key) == Some(m.value)
  {
    RestOrdered(members);
    if members[0] != m {
      assert m in members[1..] by {
        assert members == [members[0]] + members[1..];
      }
      FoundOnce(members[1..], m);
      BelowOneWay(members[0].key, m.key);
    }
  }

  /** Whatever is recognised is the manifest with assigned members: nothing else was added, changed or removed. */
  lemma {:induction false} OnlyCreatedRecognised(w: Primitives, observed: Json, manifest: Json) returns (a: Assigned)
    requires Normal(observed) && ObservedIdentity(w, observed, manifest).Some?
    ensures ObservedIdentity(w, observed, manifest) == Some((a.uid, a.version))
    ensures observed == AsCreated(manifest, a)
    ensures KindText(manifest) == "Service" ==> w.address(a.address)
  {
    var members, service := observed.members, KindText(observed) == "Service";
    var meta, spec := Get(observed, "metadata"), Get(observed, "spec");
    a := ReadOff(meta.members, Text(Get(spec, "clusterIP")));
    IncreasingOrdered(members);
    KindStripped(observed);
    forall m | m in members
      ensures GivesBack(m, a, service)
    {
      FoundOnce(members, m);
      BackAgain(w, observed, manifest, m);
    }
    MembersBack(members, a, service);
  }

  lemma {:induction false} KindStripped(observed: Json)
    requires observed.Obj?
    ensures KindText(Stripped(observed)) == KindText(observed)
  {
    assert "kind" != "metadata" && "kind" != "spec" by {
      assert |"kind"| == |"spec"| && "kind"[0] != "spec"[0];
    }
    FindStripped(observed.members, KindText(observed) == "Service", "kind");
  }

  lemma {:induction false} BackAgain(w: Primitives, observed: Json, manifest: Json, m: Member)
    requires Normal(observed) && observed.Obj? && ObservedIdentity(w, observed, manifest).Some?
    requires m in observed.members && Get(observed, m.key) == m.value && Get(observed, "metadata").Obj?
    ensures GivesBack(m, ReadOff(Get(observed, "metadata").members, Text(Get(Get(observed, "spec"), "clusterIP"))), KindText(observed) == "Service")
  {
    var address := Text(Get(Get(observed, "spec"), "clusterIP"));
    if m.key == "metadata" && m.value.Obj? {
      IncreasingOrdered(m.value.members);
      MetaBack(m.value.members, address);
    }
    if m.key == "spec" && m.value.Obj? && KindText(observed) == "Service" {
      IncreasingOrdered(m.value.members);
      WithoutThenPut(m.value.members, "clusterIP");
    }
  }
}
