/** Everything a reservation ever intends to create stays inside its profile, its quota and the observed headroom. */
module Conservation {
  import opened Prelude
  import opened CanonicalJson
  import opened Digests
  import opened Cases
  import opened AdmissionLedger
  import opened AdmissionHistory
  import opened Profiles

  /** The arguments one intent row was derived from. */
  datatype Call = Call(profile: Json, broker: BrokerBinding, action: Action)

  predicate Derived(w: Primitives, row: Row, call: Call) {
    && row.operation.Some? && row.resource.Some?
    && CreateRecord(w, row.binding, row.operation.value, call.profile, call.broker, call.action, None) == row.resource
  }

  /** Every intent of `k` was written through `record_resource`. */
  predicate AllDerived(w: Primitives, rows: seq<Row>, calls: seq<Call>, k: Key) {
    && |calls| == |rows|
    && forall i :: 0 <= i < |rows| && Intended(rows[i], k) ==> Derived(w, rows[i], calls[i])
  }

  function ProfileTexts(calls: seq<Call>): set<string> {
    set i | 0 <= i < |calls| :: Encode(calls[i].profile)
  }

  /** What the manifests with these digests take of a unit. */
  function Demand(rows: seq<Json>, digests: seq<string>, u: Unit): nat {
    if digests == [] then 0
    else
      Demand(rows, digests[..|digests| - 1], u)
      + match RowFor(rows, digests[|digests| - 1])
        case None => 0
        case Some(row) => Share(ManifestOf(row), u)
  }

  /** The quota check of validate_messages on an accepted observation. */
  predicate Headroom(profile: Json, hard: map<Unit, int>, used: map<Unit, int>) {
    forall u: Unit :: u in hard && u in used && used[u] <= hard[u] && Quota(profile, u) <= hard[u] - used[u]
  }

  // ---------------------------------------------------------------- distinct digests take at most the whole

  lemma {:induction false} UnitsPrepend(row: Json, rows: seq<Json>, u: Unit)
    ensures Units([row] + rows, u) == Share(ManifestOf(row), u) + Units(rows, u)
  {
    var all := [row] + rows;
    if rows == [] {
      assert all[..0] == [];
      assert all == [row];
    } else {
      assert all[..|all| - 1] == [row] + rows[..|rows| - 1];
      UnitsPrepend(row, rows[..|rows| - 1], u);
    }
  }

  lemma {:induction false} DemandOfFirst(rows: seq<Json>, digests: seq<string>, u: Unit)
    requires rows != [] && DistinctTexts(digests)
    ensures DigestOf(rows[0]) !in digests ==> Demand(rows, digests, u) == Demand(rows[1..], digests, u)
    ensures Demand(rows, digests, u) <= Share(ManifestOf(rows[0]), u) + Demand(rows[1..], digests, u)
  {
    if digests != [] {
      var before := digests[..|digests| - 1];
      DemandOfFirst(rows, before, u);
      assert digests == before + [digests[|digests| - 1]];
    }
  }

  lemma {:induction false} DemandWithin(rows: seq<Json>, digests: seq<string>, u: Unit)
    requires DistinctTexts(digests)
    ensures Demand(rows, digests, u) <= Units(rows, u)
  {
    if rows == [] {
      NoDemand(digests, u);
    } else {
      DemandWithin(rows[1..], digests, u);
      DemandOfFirst(rows, digests, u);
      UnitsPrepend(rows[0], rows[1..], u);
      assert rows == [rows[0]] + rows[1..];
    }
  }

  lemma {:induction false} NoDemand(digests: seq<string>, u: Unit)
    ensures Demand([], digests, u) == 0
  {
    if digests != [] {
      NoDemand(digests[..|digests| - 1], u);
    }
  }

  // ---------------------------------------------------------------- one binding, one profile

  lemma {:induction false} StepKeepsBinding(w: Primitives, s: Ledger, row: Row, k: Key)
    requires Step(w, s, row).Some?
    ensures var next := Step(w, s, row).value;
            && KeyOf(row) in next.reservations && next.reservations[KeyOf(row)].binding == row.binding
            && (k in s.reservations ==> k in next.reservations && next.reservations[k].binding == s.reservations[k].binding)
  {
  }

  /** All rows of a key carry one binding. */
  lemma {:induction false} OneBinding(w: Primitives, rows: seq<Row>, i: nat)
    requires Replay(w, rows).Some? && i < |rows|
    ensures KeyOf(rows[i]) in Replay(w, rows).value.reservations
    ensures Replay(w, rows).value.reservations[KeyOf(rows[i])].binding == rows[i].binding
    decreases |rows|
  {
    var before, last := rows[..|rows| - 1], rows[|rows| - 1];
    if i < |rows| - 1 {
      OneBinding(w, before, i);
      assert before[i] == rows[i];
    }
    StepKeepsBinding(w, Replay(w, before).value, last, KeyOf(rows[i]));
  }

  lemma {:induction false} SameProfile(w: Primitives, row: Row, call: Call, profile: Json, texts: set<string>)
    requires Derived(w, row, call) && row.binding.profileDigest == w.Digest(profile)
    requires w.CollisionFree(texts) && Encode(profile) in texts && Encode(call.profile) in texts
    ensures call.profile == profile
  {
    EncodeInjective(call.profile, profile);
  }

  /** An intent row names exactly the manifest its digest selects in the profile. */
  lemma {:induction false} IntentNamesItsManifest(w: Primitives, row: Row, call: Call)
    requires Derived(w, row, call)
    ensures ValidProfile(w, call.profile)
    ensures var r := row.resource.value;
            var found := RowFor(Resources(call.profile), r.manifestDigest);
            && found.Some? && w.Digest(ManifestOf(found.value)) == r.manifestDigest
            && KindName(r.id.kind) == KindText(ManifestOf(found.value)) && r.id.name == NameOf(ManifestOf(found.value))
  {
    var found := RowFor(Resources(call.profile), row.resource.value.manifestDigest);
    RowForFinds(Resources(call.profile), row.resource.value.manifestDigest);
    var j :| 0 <= j < |Resources(call.profile)| && Resources(call.profile)[j] == found.value;
    assert RowValid(w, call.profile, Resources(call.profile)[j]);
  }

  // ---------------------------------------------------------------- the theorem

  lemma {:induction false} IntentsInRows(rows: seq<Row>, k: Key)
    requires IntentsOf(rows, k) != []
    ensures exists i :: 0 <= i < |rows| && Intended(rows[i], k)
  {
    if Intended(Last(rows), k) {
      assert rows[|rows| - 1] == Last(rows);
    } else {
      IntentsInRows(Front(rows), k);
      var i :| 0 <= i < |rows| - 1 && Intended(Front(rows)[i], k);
      assert rows[i] == Front(rows)[i];
    }
  }

  lemma {:induction false} IntentsDistinct(w: Primitives, rows: seq<Row>, k: Key)
    requires Replay(w, rows).Some?
    ensures DistinctTexts(IntentsOf(rows, k))
  {
    ReplayConsistent(w, rows);
    if k in Replay(w, rows).value.reservations {
      assert Tracks(w, rows, k, Replay(w, rows).value.reservations[k]);
    } else {
      AdmissionHistory.NothingYet(rows, k);
    }
  }

  /** The profile a reservation is bound to is valid as soon as one of its intents was derived. */
  lemma {:induction false} BoundProfileValid(w: Primitives, rows: seq<Row>, calls: seq<Call>, k: Key, profile: Json)
    requires Replay(w, rows).Some? && AllDerived(w, rows, calls, k) && IntentsOf(rows, k) != []
    requires k in Replay(w, rows).value.reservations
    requires Replay(w, rows).value.reservations[k].binding.profileDigest == w.Digest(profile)
    requires w.CollisionFree(ProfileTexts(calls) + {Encode(profile)})
    ensures ValidProfile(w, profile)
  {
    IntentsInRows(rows, k);
    var i :| 0 <= i < |rows| && Intended(rows[i], k);
    OneBinding(w, rows, i);
    assert Encode(calls[i].profile) in ProfileTexts(calls);
    SameProfile(w, rows[i], calls[i], profile, ProfileTexts(calls) + {Encode(profile)});
    IntentNamesItsManifest(w, rows[i], calls[i]);
  }

  /**
    Conservation: whatever a reservation intends to create, summed over all its intents, is within the
    profile's units, within the profile's quota, and fits the headroom of any accepted observation.
   */
  lemma {:induction false} IntentsStayWithinQuota(w: Primitives, rows: seq<Row>, calls: seq<Call>, k: Key, profile: Json, u: Unit,
                                                  hard: map<Unit, int>, used: map<Unit, int>)
    requires Replay(w, rows).Some? && AllDerived(w, rows, calls, k) && IntentsOf(rows, k) != []
    requires k in Replay(w, rows).value.reservations
    requires Replay(w, rows).value.reservations[k].binding.profileDigest == w.Digest(profile)
    requires w.CollisionFree(ProfileTexts(calls) + {Encode(profile)})
    ensures Demand(Resources(profile), IntentsOf(rows, k), u) <= Units(Resources(profile), u) <= Quota(profile, u)
    ensures Headroom(profile, hard, used) ==> used[u] + Demand(Resources(profile), IntentsOf(rows, k), u) <= hard[u]
  {
    IntentsDistinct(w, rows, k);
    DemandWithin(Resources(profile), IntentsOf(rows, k), u);
    BoundProfileValid(w, rows, calls, k, profile);
    ValidatedNeverOverflows(w, profile, u);
  }
}
