/** Which row an accepted admission ledger may continue with, read off its rows alone. */
module AdmissionRules {
  import opened Prelude
  import opened CanonicalJson
  import opened Digests
  import opened Cases
  import opened AdmissionLedger
  import opened AdmissionHistory
  import opened AdmissionResources
  import F = AdmissionLog

  // ---------------------------------------------------------------- the rules

  ghost predicate OfKey(rows: seq<Row>, k: Key, i: int) {
    0 <= i < |rows| && KeyOf(rows[i]) == k
  }

  ghost predicate Known(rows: seq<Row>, k: Key) {
    exists i :: OfKey(rows, k, i)
  }

  /** Each of the ten cases was last recorded as clean. */
  ghost predicate Released(rows: seq<Row>, k: Key) {
    forall c: Case :: LastReceipt(rows, k, c) == Some(CLEAN)
  }

  /** The case ran and was not recorded as clean since. */
  ghost predicate Pending(rows: seq<Row>, k: Key, c: Case) {
    c in RunsOf(rows, k) && LastReceipt(rows, k, c) != Some(CLEAN)
  }

  ghost predicate Linked(w: Primitives, rows: seq<Row>, row: Row) {
    && row.sequence == |rows| + 1
    && row.previousDigest == (if rows == [] then ZERO else RowDigest(w, Last(rows)))
    && BindingShape(row.binding) && w.IsTime(row.observedAt)
    && (row.resource.Some? <==> row.state == CREATE_INTENT || row.state == CREATED)
  }

  /** A new key, when every earlier one is released. */
  ghost predicate MayReserve(rows: seq<Row>, row: Row) {
    && row.operation.None? && row.cleanup.None? && !Known(rows, KeyOf(row))
    && forall k :: Known(rows, k) ==> Released(rows, k)
  }

  /** A later row of a reservation that is not released. */
  ghost predicate SameRun(w: Primitives, rows: seq<Row>, row: Row) {
    && Known(rows, KeyOf(row)) && !Released(rows, KeyOf(row)) && w.IsTime(row.observedAt)
    && forall i :: OfKey(rows, KeyOf(row), i) ==>
         rows[i].binding == row.binding && w.IsTime(rows[i].observedAt) && w.Instant(rows[i].observedAt) <= w.Instant(row.observedAt)
  }

  /** A case that never ran, while no other is pending. */
  ghost predicate MayRun(rows: seq<Row>, row: Row, c: Case) {
    && row.cleanup.None? && c !in RunsOf(rows, KeyOf(row))
    && forall d: Case :: !Pending(rows, KeyOf(row), d)
  }

  /** The digest of the reservation's last receipt. */
  function PreviousReceipt(w: Primitives, rows: seq<Row>, k: Key): string {
    var all := ReceiptsOf(rows, k);
    if all == [] then ZERO else ReceiptDigest(w, all[|all| - 1])
  }

  /** An object that may be listed; without a uid only as a lost reply. */
  predicate Remains(x: Remaining) {
    && IsName(x.id.namespace) && IsName(x.id.name) && IsDigest(x.manifestDigest)
    && (x.uid.None? ==> x.reasonCode == IO_AMBIGUOUS) && (x.uid.Some? ==> IsUid(x.uid.value))
  }

  /** The receipt's own form: everything in it but the list is fixed. */
  ghost predicate ReceiptFor(w: Primitives, rows: seq<Row>, row: Row, c: Case, receipt: Receipt) {
    && receipt.bindingDigest == w.Digest(BindingJson(row.binding)) && IsDigest(receipt.bindingDigest)
    && receipt.operation == c && receipt.observedAt == row.observedAt && w.IsTime(row.observedAt)
    && (receipt.state == CLEAN <==> receipt.remaining == [])
    && receipt.previousReceiptDigest == PreviousReceipt(w, rows, KeyOf(row)) && IsDigest(receipt.previousReceiptDigest)
    && |receipt.remaining| <= 32 && |Encode(ReceiptJson(receipt))| <= 16384
    && (forall i :: 0 <= i < |receipt.remaining| ==> Remains(receipt.remaining[i]))
    && (forall i, j :: 0 <= i < j < |receipt.remaining| ==> receipt.remaining[i].id != receipt.remaining[j].id)
  }

  ghost predicate IntentOf(rows: seq<Row>, k: Key, c: Case, i: int) {
    0 <= i < |rows| && Intended(rows[i], k) && rows[i].operation == Some(c)
  }

  /** An entry of a receipt lists the object of intent row i: with the uid of its confirmation, or none. */
  ghost predicate Matches(rows: seq<Row>, k: Key, i: nat, m: Remaining)
    requires i < |rows| && Intended(rows[i], k)
  {
    var x := rows[i].resource.value;
    && m.id == x.id && m.manifestDigest == x.manifestDigest
    && (if ConfirmedIn(rows, k, x.id, i) then
          exists c :: i < c < |rows| && Confirmed(rows[c], k) && rows[c].resource.value.id == x.id && rows[c].resource.value.uid == m.uid
        else m.uid.None?)
  }

  /** A receipt of a case with intents lists exactly their objects. */
  ghost predicate ListsIntents(rows: seq<Row>, k: Key, c: Case, remaining: seq<Remaining>) {
    && (forall i :: IntentOf(rows, k, c, i) ==> IsListed(rows, k, i, remaining))
    && (forall j :: 0 <= j < |remaining| ==> ListsSome(rows, k, c, remaining[j]))
  }

  ghost predicate IsListed(rows: seq<Row>, k: Key, i: int, remaining: seq<Remaining>)
    requires 0 <= i < |rows| && Intended(rows[i], k)
  {
    exists j :: 0 <= j < |remaining| && Matches(rows, k, i, remaining[j])
  }

  ghost predicate ListsSome(rows: seq<Row>, k: Key, c: Case, m: Remaining) {
    exists i :: IntentOf(rows, k, c, i) && Matches(rows, k, i, m)
  }

  ghost predicate MayRecord(w: Primitives, rows: seq<Row>, row: Row, c: Case) {
    && Pending(rows, KeyOf(row), c) && row.cleanup.Some? && ReceiptFor(w, rows, row, c, row.cleanup.value)
    && ((exists i :: IntentOf(rows, KeyOf(row), c, i)) ==> ListsIntents(rows, KeyOf(row), c, row.cleanup.value.remaining))
  }

  /** A resource row of a pending case that has no receipt yet. */
  ghost predicate InCase(rows: seq<Row>, row: Row, c: Case) {
    && row.cleanup.None? && c in RunsOf(rows, KeyOf(row)) && LastReceipt(rows, KeyOf(row), c).None?
    && row.resource.Some?
    && var x := row.resource.value;
       1 <= x.actionId <= 256 && IsName(x.id.namespace) && IsName(x.id.name) && IsDigest(x.manifestDigest)
  }

  /** An earlier intent that leaves room for the resource: confirmed, another object, another manifest, and a smaller number in the case. */
  ghost predicate MakesRoom(rows: seq<Row>, k: Key, c: Case, x: Resource, i: nat)
    requires i < |rows| && Intended(rows[i], k)
  {
    var y := rows[i].resource.value;
    && ConfirmedIn(rows, k, y.id, i) && y.id != x.id && y.manifestDigest != x.manifestDigest
    && (rows[i].operation == Some(c) ==> y.actionId < x.actionId)
  }

  /** A new object with a new manifest, when every earlier intent is confirmed. */
  ghost predicate MayIntend(rows: seq<Row>, row: Row, c: Case) {
    && InCase(rows, row, c)
    && var x, k := row.resource.value, KeyOf(row);
       && x.uid.None? && x.resourceVersion.None? && |IntentsOf(rows, k)| < 32
       && forall i :: 0 <= i < |rows| && Intended(rows[i], k) ==> MakesRoom(rows, k, c, x, i)
  }

  /** An intent of the case for this resource that is not confirmed yet. */
  ghost predicate OpenIntent(rows: seq<Row>, k: Key, c: Case, x: Resource, i: int) {
    IntentOf(rows, k, c, i) && rows[i].resource.value == Bare(x) && !ConfirmedIn(rows, k, x.id, i)
  }

  /** An identity that no confirmation of the reservation assigned before. */
  ghost predicate NewUid(rows: seq<Row>, k: Key, uid: Option<string>) {
    forall i :: 0 <= i < |rows| && Confirmed(rows[i], k) ==> rows[i].resource.value.uid != uid
  }

  /** The identity the API assigned to an open intent. */
  ghost predicate Assigns(rows: seq<Row>, k: Key, c: Case, x: Resource) {
    && x.uid.Some? && IsUid(x.uid.value) && x.resourceVersion.Some? && IsVersion(x.resourceVersion.value)
    && (exists i :: OpenIntent(rows, k, c, x, i)) && NewUid(rows, k, x.uid)
  }

  ghost predicate MayConfirm(rows: seq<Row>, row: Row, c: Case) {
    InCase(rows, row, c) && Assigns(rows, KeyOf(row), c, row.resource.value)
  }

  ghost predicate MayContinue(w: Primitives, rows: seq<Row>, row: Row, c: Case) {
    match row.state
    case RESERVED => false
    case RUNNING => MayRun(rows, row, c)
    case RECORDED => MayRecord(w, rows, row, c)
    case CREATE_INTENT => MayIntend(rows, row, c)
    case CREATED => MayConfirm(rows, row, c)
  }

  /** What may follow an accepted history. */
  ghost predicate MayFollow(w: Primitives, rows: seq<Row>, row: Row) {
    && Linked(w, rows, row)
    && (if row.state == RESERVED then MayReserve(rows, row)
        else SameRun(w, rows, row) && row.operation.Some? && MayContinue(w, rows, row, row.operation.value))
  }

  // ---------------------------------------------------------------- what the running variables tell of the rows

  ghost predicate Told(w: Primitives, rows: seq<Row>, k: Key, r: Reservation) {
    && (exists i :: OfKey(rows, k, i) && w.IsTime(rows[i].observedAt) && w.Instant(rows[i].observedAt) == r.last)
    && (forall i :: OfKey(rows, k, i) ==> rows[i].binding == r.binding && w.IsTime(rows[i].observedAt) && w.Instant(rows[i].observedAt) <= r.last)
  }

  /** The current case is the pending one; a case that did not run has no receipt. */
  ghost predicate Running(rows: seq<Row>, k: Key, r: Reservation) {
    && (r.current.Some? ==> LastReceipt(rows, k, r.current.value) != Some(CLEAN))
    && (forall c: Case :: c !in r.done ==> LastReceipt(rows, k, c).None?)
    && |r.resources| == |IntentsOf(rows, k)|
  }

  ghost predicate Tells(w: Primitives, rows: seq<Row>, s: Ledger) {
    && (forall k :: k in s.reservations ==> Told(w, rows, k, s.reservations[k]) && Running(rows, k, s.reservations[k]))
    && (forall k, c :: (k, c) in s.recorded <==> LastReceipt(rows, k, c).Some?)
    && s.previous == (if rows == [] then ZERO else RowDigest(w, Last(rows)))
  }

  lemma {:induction false} OfKeyFront(rows: seq<Row>, k: Key, i: int)
    requires rows != []
    ensures OfKey(rows, k, i) <==> OfKey(Front(rows), k, i) || (i == |rows| - 1 && KeyOf(Last(rows)) == k)
    ensures OfKey(Front(rows), k, i) ==> rows[i] == Front(rows)[i]
  {
  }

  lemma {:induction false} OtherTold(w: Primitives, rows: seq<Row>, k: Key, r: Reservation)
    requires rows != [] && KeyOf(Last(rows)) != k && Told(w, Front(rows), k, r)
    ensures Told(w, rows, k, r)
  {
    var i :| OfKey(Front(rows), k, i) && w.IsTime(Front(rows)[i].observedAt) && w.Instant(Front(rows)[i].observedAt) == r.last;
    OfKeyFront(rows, k, i);
    forall j | OfKey(rows, k, j)
      ensures rows[j].binding == r.binding && w.IsTime(rows[j].observedAt) && w.Instant(rows[j].observedAt) <= r.last
    {
      OfKeyFront(rows, k, j);
    }
  }

  lemma {:induction false} OneMoreTold(w: Primitives, rows: seq<Row>, r: Reservation, next: Reservation)
    requires rows != [] && Told(w, Front(rows), KeyOf(Last(rows)), r) && next.binding == r.binding == Last(rows).binding
    requires w.IsTime(Last(rows).observedAt) && r.last <= w.Instant(Last(rows).observedAt) == next.last
    ensures Told(w, rows, KeyOf(Last(rows)), next)
  {
    var k := KeyOf(Last(rows));
    assert OfKey(rows, k, |rows| - 1);
    forall j | OfKey(rows, k, j)
      ensures rows[j].binding == next.binding && w.IsTime(rows[j].observedAt) && w.Instant(rows[j].observedAt) <= next.last
    {
      OfKeyFront(rows, k, j);
    }
  }

  lemma {:induction false} FirstTold(w: Primitives, rows: seq<Row>, next: Reservation)
    requires rows != [] && !Known(Front(rows), KeyOf(Last(rows))) && next.binding == Last(rows).binding
    requires w.IsTime(Last(rows).observedAt) && w.Instant(Last(rows).observedAt) == next.last
    ensures Told(w, rows, KeyOf(Last(rows)), next)
  {
    var k := KeyOf(Last(rows));
    assert OfKey(rows, k, |rows| - 1);
    forall j | OfKey(rows, k, j)
      ensures j == |rows| - 1
    {
      OfKeyFront(rows, k, j);
    }
  }

  /** What an accepted row does to the variables of its key. */
  lemma {:induction false} StepKeepsTime(w: Primitives, s: Ledger, row: Row)
    requires Step(w, s, row).Some?
    ensures w.IsTime(row.observedAt) && KeyOf(row) in Step(w, s, row).value.reservations
    ensures var next := Step(w, s, row).value.reservations[KeyOf(row)];
            && next.binding == row.binding && next.last == w.Instant(row.observedAt)
            && (KeyOf(row) in s.reservations ==> s.reservations[KeyOf(row)].binding == row.binding && s.reservations[KeyOf(row)].last <= next.last)
    ensures forall k :: k in Step(w, s, row).value.reservations && k != KeyOf(row) ==>
              k in s.reservations && Step(w, s, row).value.reservations[k] == s.reservations[k]
    ensures Step(w, s, row).value.previous == RowDigest(w, row)
  {
  }

  lemma {:induction false} StepTold(w: Primitives, rows: seq<Row>, s: Ledger)
    requires rows != [] && Step(w, s, Last(rows)).Some?
    requires KeyOf(Last(rows)) in s.reservations ==> Told(w, Front(rows), KeyOf(Last(rows)), s.reservations[KeyOf(Last(rows))])
    requires KeyOf(Last(rows)) !in s.reservations ==> !Known(Front(rows), KeyOf(Last(rows)))
    ensures KeyOf(Last(rows)) in Step(w, s, Last(rows)).value.reservations
    ensures Told(w, rows, KeyOf(Last(rows)), Step(w, s, Last(rows)).value.reservations[KeyOf(Last(rows))])
  {
    var k := KeyOf(Last(rows));
    StepKeepsTime(w, s, Last(rows));
    var next := Step(w, s, Last(rows)).value.reservations[k];
    if k in s.reservations {
      OneMoreTold(w, rows, s.reservations[k], next);
    } else {
      FirstTold(w, rows, next);
    }
  }

  lemma {:induction false} NoReceiptYet(rows: seq<Row>, k: Key, c: Case)
    requires !Known(rows, k)
    ensures LastReceipt(rows, k, c).None? && IntentsOf(rows, k) == [] && RunsOf(rows, k) == []
  {
    if rows != [] {
      assert KeyOf(Last(rows)) != k by {
        if KeyOf(Last(rows)) == k {
          assert OfKey(rows, k, |rows| - 1);
        }
      }
      forall i | OfKey(Front(rows), k, i)
        ensures false
      {
        OfKeyFront(rows, k, i);
      }
      NoReceiptYet(Front(rows), k, c);
    }
  }

  lemma {:induction false} LeftAlone(rows: seq<Row>, k: Key, r: Reservation)
    requires rows != [] && KeyOf(Last(rows)) != k && Running(Front(rows), k, r)
    ensures Running(rows, k, r)
  {
    OtherKeysHistory(rows, k);
  }

  lemma {:induction false} FirstRunning(w: Primitives, rows: seq<Row>, s: Ledger)
    requires rows != [] && !Known(Front(rows), KeyOf(Last(rows))) && w.IsTime(Last(rows).observedAt) && Open(w, s, Last(rows)).Some?
    ensures Running(rows, KeyOf(Last(rows)), Open(w, s, Last(rows)).value)
  {
    var k := KeyOf(Last(rows));
    forall c: Case
      ensures LastReceipt(rows, k, c).None?
    {
      NoReceiptYet(Front(rows), k, c);
    }
    NoReceiptYet(Front(rows), k, KUBERNETES_SMOKE);
  }

  lemma {:induction false} RunRunning(w: Primitives, rows: seq<Row>, s: Ledger, prior: Reservation)
    requires rows != [] && Last(rows).state == RUNNING && Continue(w, s, prior, Last(rows)).Some?
    requires Running(Front(rows), KeyOf(Last(rows)), prior)
    ensures Running(rows, KeyOf(Last(rows)), Continue(w, s, prior, Last(rows)).value)
  {
    RunningRow(w, s, prior, Last(rows));
    RunningHistory(rows, KeyOf(Last(rows)), Last(rows).operation.value);
  }

  lemma {:induction false} RecordRunning(w: Primitives, rows: seq<Row>, s: Ledger, prior: Reservation)
    requires rows != [] && Last(rows).state == RECORDED && Continue(w, s, prior, Last(rows)).Some?
    requires Running(Front(rows), KeyOf(Last(rows)), prior) && (prior.current.Some? ==> prior.current.value in prior.done)
    ensures Running(rows, KeyOf(Last(rows)), Continue(w, s, prior, Last(rows)).value)
  {
    RecordedRow(w, prior, Last(rows));
    RecordedHistory(rows, KeyOf(Last(rows)), Last(rows).operation.value);
  }

  lemma {:induction false} ResourceCounted(prior: Reservation, row: Row)
    requires row.operation.Some? && ResourceTransition(prior, row).Some? && (row.state == CREATE_INTENT || row.state == CREATED)
    ensures row.resource.Some?
    ensures |ResourceTransition(prior, row).value.resources| == |prior.resources| + if row.state == CREATE_INTENT then 1 else 0
  {
    var id, next := row.resource.value.id, ResourceTransition(prior, row).value.resources;
    assert next.Keys == prior.resources.Keys + {id};
    assert |next| == |next.Keys| && |prior.resources| == |prior.resources.Keys|;
  }

  lemma {:induction false} ResourceRunning(w: Primitives, rows: seq<Row>, s: Ledger, prior: Reservation)
    requires rows != [] && (Last(rows).state == CREATE_INTENT || Last(rows).state == CREATED) && Continue(w, s, prior, Last(rows)).Some?
    requires Running(Front(rows), KeyOf(Last(rows)), prior)
    ensures Running(rows, KeyOf(Last(rows)), Continue(w, s, prior, Last(rows)).value)
  {
    ResourceRowHistory(rows, KeyOf(Last(rows)));
    ResourceCounted(prior, Last(rows));
  }

  lemma {:induction false} ContinueRunning(w: Primitives, rows: seq<Row>, s: Ledger, prior: Reservation)
    requires rows != [] && Continue(w, s, prior, Last(rows)).Some?
    requires Running(Front(rows), KeyOf(Last(rows)), prior) && (prior.current.Some? ==> prior.current.value in prior.done)
    ensures Running(rows, KeyOf(Last(rows)), Continue(w, s, prior, Last(rows)).value)
  {
    match Last(rows).state
    case RESERVED =>
    case RUNNING => RunRunning(w, rows, s, prior);
    case RECORDED => RecordRunning(w, rows, s, prior);
    case _ => ResourceRunning(w, rows, s, prior);
  }

  lemma {:induction false} StepIs(w: Primitives, s: Ledger, row: Row)
    requires Step(w, s, row).Some?
    ensures w.IsTime(row.observedAt) && KeyOf(row) in Step(w, s, row).value.reservations
    ensures var next := Step(w, s, row).value.reservations[KeyOf(row)];
            if KeyOf(row) in s.reservations then
              Continue(w, s, s.reservations[KeyOf(row)], row).Some? && next == Continue(w, s, s.reservations[KeyOf(row)], row).value.(last := next.last)
            else Open(w, s, row).Some? && next == Open(w, s, row).value.(last := next.last)
  {
  }

  lemma {:induction false} StepRunning(w: Primitives, rows: seq<Row>, s: Ledger)
    requires rows != [] && Step(w, s, Last(rows)).Some? && Consistent(w, Front(rows), s)
    requires KeyOf(Last(rows)) in s.reservations ==> Running(Front(rows), KeyOf(Last(rows)), s.reservations[KeyOf(Last(rows))])
    requires KeyOf(Last(rows)) !in s.reservations ==> !Known(Front(rows), KeyOf(Last(rows)))
    ensures KeyOf(Last(rows)) in Step(w, s, Last(rows)).value.reservations
    ensures Running(rows, KeyOf(Last(rows)), Step(w, s, Last(rows)).value.reservations[KeyOf(Last(rows))])
  {
    StepIs(w, s, Last(rows));
    if KeyOf(Last(rows)) in s.reservations {
      ContinueRunning(w, rows, s, s.reservations[KeyOf(Last(rows))]);
    } else {
      FirstRunning(w, rows, s);
    }
  }

  lemma {:induction false} StepRecorded(w: Primitives, s: Ledger, row: Row)
    requires Step(w, s, row).Some?
    ensures row.state == RECORDED ==> row.operation.Some? && row.cleanup.Some?
                                      && Step(w, s, row).value.recorded == s.recorded + {(KeyOf(row), row.operation.value)}
    ensures row.state != RECORDED ==> Step(w, s, row).value.recorded == s.recorded
  {
  }

  lemma {:induction false} RecordedTold(w: Primitives, rows: seq<Row>, s: Ledger, k: Key, c: Case)
    requires rows != [] && Step(w, s, Last(rows)).Some? && ((k, c) in s.recorded <==> LastReceipt(Front(rows), k, c).Some?)
    ensures (k, c) in Step(w, s, Last(rows)).value.recorded <==> LastReceipt(rows, k, c).Some?
  {
    StepRecorded(w, s, Last(rows));
  }

  lemma {:induction false} KnownInLedger(w: Primitives, rows: seq<Row>, s: Ledger, k: Key)
    requires Consistent(w, rows, s) && k !in s.reservations
    ensures !Known(rows, k)
  {
  }

  /** The running variables of an accepted history tell what its rows say. */
  lemma {:induction false} ReplayTells(w: Primitives, rows: seq<Row>)
    requires Replay(w, rows).Some?
    ensures Tells(w, rows, Replay(w, rows).value)
  {
    if rows != [] {
      ReplayTells(w, Front(rows));
      ReplayConsistent(w, Front(rows));
      StepTells(w, rows, Replay(w, Front(rows)).value);
    }
  }

  lemma {:induction false} StepTells(w: Primitives, rows: seq<Row>, s: Ledger)
    requires rows != [] && Consistent(w, Front(rows), s) && Tells(w, Front(rows), s) && Step(w, s, Last(rows)).Some?
    ensures Tells(w, rows, Step(w, s, Last(rows)).value)
  {
    var k, next := KeyOf(Last(rows)), Step(w, s, Last(rows)).value;
    if k !in s.reservations {
      KnownInLedger(w, Front(rows), s, k);
    }
    StepKeepsTime(w, s, Last(rows));
    StepTold(w, rows, s);
    StepRunning(w, rows, s);
    forall other | other in next.reservations && other != k
      ensures Told(w, rows, other, next.reservations[other]) && Running(rows, other, next.reservations[other])
    {
      OtherTold(w, rows, other, s.reservations[other]);
      LeftAlone(rows, other, s.reservations[other]);
    }
    forall other, c
      ensures (other, c) in next.recorded <==> LastReceipt(rows, other, c).Some?
    {
      RecordedTold(w, rows, s, other, c);
    }
  }

  // ---------------------------------------------------------------- each rule is the transition

  lemma {:induction false} CurrentIsPending(w: Primitives, rows: seq<Row>, k: Key, r: Reservation, c: Case)
    requires Tracks(w, rows, k, r) && Running(rows, k, r)
    ensures r.current == Some(c) <==> Pending(rows, k, c)
  {
  }

  lemma {:induction false} NoneIsPending(w: Primitives, rows: seq<Row>, k: Key, r: Reservation)
    requires Tracks(w, rows, k, r) && Running(rows, k, r)
    ensures r.current.None? <==> forall c: Case :: !Pending(rows, k, c)
  {
    forall c: Case
      ensures r.current == Some(c) <==> Pending(rows, k, c)
    {
      CurrentIsPending(w, rows, k, r, c);
    }
  }

  lemma {:induction false} TenMembers(done: seq<Case>)
    requires Distinct(done) && |done| >= |CASES|
    ensures Members(done) == ALL
  {
    DistinctSize(done);
    TenAreAll(Members(done));
  }

  lemma {:induction false} Fewer(some: set<Case>, all: set<Case>)
    requires some <= all
    ensures |some| <= |all|
  {
    if some != {} {
      var c :| c in some;
      Fewer(some - {c}, all - {c});
    }
  }

  lemma {:induction false} AllMembers(done: seq<Case>)
    requires Distinct(done) && ALL <= Members(done)
    ensures |done| >= |CASES|
  {
    DistinctSize(done);
    Fewer(ALL, Members(done));
    TenCases();
  }

  lemma {:induction false} TenCases()
    ensures |ALL| == |CASES|
  {
  }

  lemma {:induction false} AllTenRan(done: seq<Case>)
    requires Distinct(done)
    ensures |done| >= |CASES| <==> forall c: Case :: c in done
  {
    if |done| >= |CASES| {
      TenMembers(done);
      forall c: Case
        ensures c in done
      {
        EveryCase(c);
        assert c in Members(done);
      }
    }
    if forall c: Case :: c in done {
      assert forall c :: c in ALL ==> c in Members(done);
      AllMembers(done);
    }
  }

  lemma {:induction false} HeldUntilReleased(w: Primitives, rows: seq<Row>, k: Key, r: Reservation)
    requires Tracks(w, rows, k, r) && Running(rows, k, r)
    ensures r.held <==> !Released(rows, k)
  {
    AllTenRan(r.done);
    if Released(rows, k) {
      forall c: Case
        ensures c in r.done && r.current != Some(c)
      {
        assert LastReceipt(rows, k, c) == Some(CLEAN);
      }
    }
    if !r.held {
      forall c: Case
        ensures LastReceipt(rows, k, c) == Some(CLEAN)
      {
        assert c in r.done;
      }
    }
  }

  lemma {:induction false} KnownExactly(w: Primitives, rows: seq<Row>, s: Ledger, k: Key)
    requires Consistent(w, rows, s) && Tells(w, rows, s)
    ensures Known(rows, k) <==> k in s.reservations
  {
    if k in s.reservations {
      assert Told(w, rows, k, s.reservations[k]);
    }
  }

  lemma {:induction false} OpenExactly(w: Primitives, rows: seq<Row>, s: Ledger, row: Row)
    requires Consistent(w, rows, s) && Tells(w, rows, s) && w.IsTime(row.observedAt)
    ensures KeyOf(row) !in s.reservations && Open(w, s, row).Some? <==> row.state == RESERVED && MayReserve(rows, row)
  {
    KnownExactly(w, rows, s, KeyOf(row));
    NothingHeldExactly(w, rows, s);
  }

  lemma {:induction false} NothingHeldExactly(w: Primitives, rows: seq<Row>, s: Ledger)
    requires Consistent(w, rows, s) && Tells(w, rows, s)
    ensures (exists k :: k in s.reservations && s.reservations[k].held) <==> !(forall k :: Known(rows, k) ==> Released(rows, k))
  {
    forall k
      ensures Known(rows, k) <==> k in s.reservations
      ensures k in s.reservations ==> (s.reservations[k].held <==> !Released(rows, k))
    {
      KnownExactly(w, rows, s, k);
      if k in s.reservations {
        HeldUntilReleased(w, rows, k, s.reservations[k]);
      }
    }
  }

  lemma {:induction false} SameRunExactly(w: Primitives, rows: seq<Row>, r: Reservation, row: Row)
    requires Tracks(w, rows, KeyOf(row), r) && Running(rows, KeyOf(row), r) && Told(w, rows, KeyOf(row), r) && w.IsTime(row.observedAt)
    ensures SameRun(w, rows, row) <==> row.binding == r.binding && r.held && r.last <= w.Instant(row.observedAt)
  {
    HeldUntilReleased(w, rows, KeyOf(row), r);
    var i :| OfKey(rows, KeyOf(row), i) && w.IsTime(rows[i].observedAt) && w.Instant(rows[i].observedAt) == r.last;
    assert rows[i].binding == r.binding;
  }

  lemma {:induction false} RunExactly(w: Primitives, rows: seq<Row>, r: Reservation, row: Row, c: Case)
    requires Tracks(w, rows, KeyOf(row), r) && Running(rows, KeyOf(row), r)
    ensures r.current.None? && c !in r.done && row.cleanup.None? <==> MayRun(rows, row, c)
  {
    NoneIsPending(w, rows, KeyOf(row), r);
  }

  lemma {:induction false} ReceiptUnfolds(w: Primitives, bindingDigest: string, c: Case, now: string, previous: string, receipt: Receipt)
    requires w.IsTime(now)
    ensures CleanupReceipt(w, bindingDigest, c, now, receipt.remaining, previous) == Some(receipt) <==>
            && receipt.bindingDigest == bindingDigest && IsDigest(bindingDigest) && receipt.operation == c && receipt.observedAt == now
            && receipt.previousReceiptDigest == previous && IsDigest(previous)
            && (receipt.state == CLEAN <==> receipt.remaining == [])
            && |receipt.remaining| <= 32 && |Encode(ReceiptJson(receipt))| <= 16384
            && (forall i :: 0 <= i < |receipt.remaining| ==> RemainingShape(receipt.remaining[i]))
            && (forall i, j :: 0 <= i < j < |receipt.remaining| ==> receipt.remaining[i].id != receipt.remaining[j].id)
  {
  }

  lemma {:induction false} PreviousIs(w: Primitives, rows: seq<Row>, k: Key, r: Reservation)
    requires Tracks(w, rows, k, r)
    ensures r.cleanupDigest == PreviousReceipt(w, rows, k)
  {
  }

  lemma {:induction false} RemainsExactly(remaining: seq<Remaining>)
    ensures (forall i :: 0 <= i < |remaining| ==> RemainingShape(remaining[i])) <==> (forall i :: 0 <= i < |remaining| ==> Remains(remaining[i]))
  {
    forall i | 0 <= i < |remaining|
      ensures RemainingShape(remaining[i]) <==> Remains(remaining[i])
    {
    }
  }

  lemma {:induction false} ReceiptExactly(w: Primitives, rows: seq<Row>, row: Row, c: Case, receipt: Receipt)
    requires w.IsTime(row.observedAt)
    ensures var previous := PreviousReceipt(w, rows, KeyOf(row));
            CleanupReceipt(w, w.Digest(BindingJson(row.binding)), c, row.observedAt, receipt.remaining, previous) == Some(receipt)
            <==> ReceiptFor(w, rows, row, c, receipt)
  {
    ReceiptUnfolds(w, w.Digest(BindingJson(row.binding)), c, row.observedAt, PreviousReceipt(w, rows, KeyOf(row)), receipt);
    RemainsExactly(receipt.remaining);
  }

  // ---------------------------------------------------------------- resource rows

  /** An entry and the row of its intent. */
  lemma {:induction false} EntryHasIntent(rows: seq<Row>, k: Key, r: Reservation, id: Identity) returns (i: nat)
    requires Booked(rows, k, r) && id in r.resources
    ensures i < |rows| && Intended(rows[i], k) && rows[i].resource.value == Bare(r.resources[id].resource) && rows[i].resource.value.id == id
    ensures rows[i].operation == Some(r.resources[id].operation)
    ensures r.resources[id].created <==> ConfirmedIn(rows, k, id, i)
  {
    i :| 0 <= i < |rows| && Intended(rows[i], k) && rows[i].resource.value == Bare(r.resources[id].resource);
    assert IntentBooked(rows, k, r, i);
  }

  /** What a receipt must say of an object is what its entry says. */
  lemma {:induction false} MatchesEntry(rows: seq<Row>, k: Key, r: Reservation, i: nat, m: Remaining)
    requires Booked(rows, k, r) && i < |rows| && Intended(rows[i], k)
    ensures rows[i].resource.value.id in r.resources
    ensures var x := rows[i].resource.value;
            Matches(rows, k, i, m) <==> m.id == x.id && m.manifestDigest == x.manifestDigest && m.uid == r.resources[x.id].resource.uid
  {
    var x := rows[i].resource.value;
    assert IntentBooked(rows, k, r, i);
    if ConfirmedIn(rows, k, x.id, i) {
      forall c | i < c < |rows| && Confirmed(rows[c], k) && rows[c].resource.value.id == x.id
        ensures rows[c].resource.value.uid == r.resources[x.id].resource.uid
      {
        assert CreatedBooked(rows, k, r, c);
      }
    } else {
      assert Bare(r.resources[x.id].resource) == x;
    }
  }

  lemma {:induction false} CaseEntries(rows: seq<Row>, k: Key, r: Reservation, c: Case)
    requires Booked(rows, k, r)
    ensures (exists i :: IntentOf(rows, k, c, i)) <==> ResourcesOf(r.resources, c) != {}
  {
    if exists i :: IntentOf(rows, k, c, i) {
      var i :| IntentOf(rows, k, c, i);
      assert IntentBooked(rows, k, r, i);
      assert rows[i].resource.value.id in ResourcesOf(r.resources, c);
    }
    if ResourcesOf(r.resources, c) != {} {
      var id :| id in ResourcesOf(r.resources, c);
      var i := EntryHasIntent(rows, k, r, id);
      assert IntentOf(rows, k, c, i);
    }
  }

  lemma {:induction false} IntentTriple(rows: seq<Row>, k: Key, r: Reservation, c: Case, i: nat, m: Remaining)
    requires Booked(rows, k, r) && IntentOf(rows, k, c, i)
    ensures rows[i].resource.value.id in ResourcesOf(r.resources, c)
    ensures Matches(rows, k, i, m) <==> Triple(m) == EntryTriple(r.resources, rows[i].resource.value.id)
  {
    MatchesEntry(rows, k, r, i, m);
    assert IntentBooked(rows, k, r, i);
    assert Bare(r.resources[rows[i].resource.value.id].resource) == rows[i].resource.value;
  }

  lemma {:induction false} ListedIsTracked(rows: seq<Row>, k: Key, r: Reservation, c: Case, remaining: seq<Remaining>, j: nat)
    requires Booked(rows, k, r) && j < |remaining| && ListsSome(rows, k, c, remaining[j])
    ensures Triple(remaining[j]) in Tracked(r.resources, c)
  {
    var i :| IntentOf(rows, k, c, i) && Matches(rows, k, i, remaining[j]);
    IntentTriple(rows, k, r, c, i, remaining[j]);
  }

  lemma {:induction false} TrackedIsListed(rows: seq<Row>, k: Key, r: Reservation, c: Case, remaining: seq<Remaining>, id: Identity)
    requires Booked(rows, k, r) && ListsIntents(rows, k, c, remaining) && id in ResourcesOf(r.resources, c)
    ensures EntryTriple(r.resources, id) in Listed(remaining)
  {
    var i := EntryHasIntent(rows, k, r, id);
    assert IntentOf(rows, k, c, i) && IsListed(rows, k, i, remaining);
    var j :| 0 <= j < |remaining| && Matches(rows, k, i, remaining[j]);
    IntentTriple(rows, k, r, c, i, remaining[j]);
  }

  lemma {:induction false} ListsToTracked(rows: seq<Row>, k: Key, r: Reservation, c: Case, remaining: seq<Remaining>)
    requires Booked(rows, k, r) && ListsIntents(rows, k, c, remaining)
    ensures Listed(remaining) == Tracked(r.resources, c)
  {
    forall j | 0 <= j < |remaining|
      ensures Triple(remaining[j]) in Tracked(r.resources, c)
    {
      ListedIsTracked(rows, k, r, c, remaining, j);
    }
    forall id | id in ResourcesOf(r.resources, c)
      ensures EntryTriple(r.resources, id) in Listed(remaining)
    {
      TrackedIsListed(rows, k, r, c, remaining, id);
    }
  }

  lemma {:induction false} TrackedToLists(rows: seq<Row>, k: Key, r: Reservation, c: Case, remaining: seq<Remaining>)
    requires Booked(rows, k, r) && Listed(remaining) == Tracked(r.resources, c)
    ensures ListsIntents(rows, k, c, remaining)
  {
    forall i | IntentOf(rows, k, c, i)
      ensures IsListed(rows, k, i, remaining)
    {
      var id := rows[i].resource.value.id;
      assert IntentBooked(rows, k, r, i);
      assert EntryTriple(r.resources, id) in Tracked(r.resources, c) by {
        assert id in ResourcesOf(r.resources, c);
      }
      var j :| 0 <= j < |remaining| && Triple(remaining[j]) == EntryTriple(r.resources, id);
      IntentTriple(rows, k, r, c, i, remaining[j]);
    }
    forall j | 0 <= j < |remaining|
      ensures ListsSome(rows, k, c, remaining[j])
    {
      assert Triple(remaining[j]) in Listed(remaining);
      var id :| id in ResourcesOf(r.resources, c) && EntryTriple(r.resources, id) == Triple(remaining[j]);
      var i := EntryHasIntent(rows, k, r, id);
      assert IntentOf(rows, k, c, i);
      IntentTriple(rows, k, r, c, i, remaining[j]);
    }
  }

  /** Entries with distinct objects: as many as the set they make. */
  lemma {:induction false} ListedSize(remaining: seq<Remaining>)
    requires forall i, j :: 0 <= i < j < |remaining| ==> remaining[i].id != remaining[j].id
    ensures |Listed(remaining)| == |remaining|
  {
    if remaining != [] {
      var front, last := remaining[..|remaining| - 1], remaining[|remaining| - 1];
      ListedSize(front);
      ListedMore(front, last);
      assert front + [last] == remaining;
    }
  }

  lemma {:induction false} ListedMore(front: seq<Remaining>, last: Remaining)
    requires forall i :: 0 <= i < |front| ==> front[i].id != last.id
    ensures Listed(front + [last]) == Listed(front) + {Triple(last)} && Triple(last) !in Listed(front)
  {
    var all := front + [last];
    forall t | t in Listed(all)
      ensures t in Listed(front) + {Triple(last)}
    {
      var i :| 0 <= i < |all| && Triple(all[i]) == t;
      assert i < |front| ==> front[i] == all[i];
    }
    forall t | t in Listed(front) + {Triple(last)}
      ensures t in Listed(all)
    {
      if t in Listed(front) {
        var i :| 0 <= i < |front| && Triple(front[i]) == t;
        assert all[i] == front[i];
      } else {
        assert all[|front|] == last && Triple(all[|front|]) in Listed(all);
      }
    }
  }

  lemma {:induction false} TrackedSize(r: Reservation, c: Case, ids: set<Identity>)
    requires ids <= ResourcesOf(r.resources, c)
    ensures |(set id | id in ids :: EntryTriple(r.resources, id))| == |ids|
  {
    if ids != {} {
      var id :| id in ids;
      TrackedSize(r, c, ids - {id});
      var less := set x | x in ids - {id} :: EntryTriple(r.resources, x);
      assert (set x | x in ids :: EntryTriple(r.resources, x)) == less + {EntryTriple(r.resources, id)};
    }
  }

  lemma {:induction false} TrackedIsSized(r: Reservation, c: Case)
    ensures |Tracked(r.resources, c)| == |ResourcesOf(r.resources, c)|
  {
    TrackedSize(r, c, ResourcesOf(r.resources, c));
    assert Tracked(r.resources, c) == (set id | id in ResourcesOf(r.resources, c) :: EntryTriple(r.resources, id));
  }

  /** The comparison of the RECORDED rule, as a statement about rows. */
  lemma {:induction false} ListExactly(rows: seq<Row>, k: Key, r: Reservation, c: Case, remaining: seq<Remaining>)
    requires Booked(rows, k, r) && forall i, j :: 0 <= i < j < |remaining| ==> remaining[i].id != remaining[j].id
    ensures ListsIntents(rows, k, c, remaining) <==>
            |remaining| == |ResourcesOf(r.resources, c)| && Listed(remaining) == Tracked(r.resources, c)
  {
    ListedSize(remaining);
    TrackedIsSized(r, c);
    if ListsIntents(rows, k, c, remaining) {
      ListsToTracked(rows, k, r, c, remaining);
    }
    if Listed(remaining) == Tracked(r.resources, c) {
      TrackedToLists(rows, k, r, c, remaining);
    }
  }

  /** The RECORDED branch, its receipt and its list taken apart. */
  lemma {:induction false} RecordUnfolds(w: Primitives, r: Reservation, row: Row, c: Case)
    requires row.operation == Some(c)
    ensures RecordTransition(w, r, row).Some? <==>
            && row.cleanup.Some? && r.current == Some(c)
            && CleanupReceipt(w, w.Digest(BindingJson(row.binding)), c, row.observedAt, row.cleanup.value.remaining, r.cleanupDigest) == row.cleanup
            && (ResourcesOf(r.resources, c) != {} ==>
                  |row.cleanup.value.remaining| == |ResourcesOf(r.resources, c)|
                  && Listed(row.cleanup.value.remaining) == Tracked(r.resources, c))
  {
  }

  lemma {:induction false} RecordExactly(w: Primitives, rows: seq<Row>, r: Reservation, row: Row, c: Case)
    requires Tracks(w, rows, KeyOf(row), r) && Running(rows, KeyOf(row), r) && Booked(rows, KeyOf(row), r)
    requires w.IsTime(row.observedAt) && row.operation == Some(c)
    ensures RecordTransition(w, r, row).Some? <==> MayRecord(w, rows, row, c)
  {
    RecordUnfolds(w, r, row, c);
    CurrentIsPending(w, rows, KeyOf(row), r, c);
    CaseEntries(rows, KeyOf(row), r, c);
    if row.cleanup.Some? {
      PreviousIs(w, rows, KeyOf(row), r);
      ReceiptExactly(w, rows, row, c, row.cleanup.value);
      if ReceiptFor(w, rows, row, c, row.cleanup.value) {
        ListExactly(rows, KeyOf(row), r, c, row.cleanup.value.remaining);
      }
    }
  }

  lemma {:induction false} InCaseExactly(w: Primitives, rows: seq<Row>, r: Reservation, row: Row, c: Case)
    requires Tracks(w, rows, KeyOf(row), r) && Running(rows, KeyOf(row), r)
    ensures InCase(rows, row, c) <==>
            && row.cleanup.None? && row.resource.Some? && ResourceShape(row.resource.value)
            && r.current == Some(c) && LastReceipt(rows, KeyOf(row), c).None?
  {
    CurrentIsPending(w, rows, KeyOf(row), r, c);
  }

  lemma {:induction false} IntentMakesRoom(rows: seq<Row>, k: Key, r: Reservation, x: Resource, c: Case, i: nat)
    requires Booked(rows, k, r) && NewIntent(r.resources, x, c) && i < |rows| && Intended(rows[i], k)
    ensures MakesRoom(rows, k, c, x, i)
  {
    assert IntentBooked(rows, k, r, i);
    assert Bare(r.resources[rows[i].resource.value.id].resource) == rows[i].resource.value;
  }

  lemma {:induction false} EntryMakesRoom(rows: seq<Row>, k: Key, r: Reservation, x: Resource, c: Case, id: Identity)
    requires Booked(rows, k, r) && id in r.resources
    requires forall i :: 0 <= i < |rows| && Intended(rows[i], k) ==> MakesRoom(rows, k, c, x, i)
    ensures id != x.id && r.resources[id].created && r.resources[id].resource.manifestDigest != x.manifestDigest
    ensures r.resources[id].operation == c ==> r.resources[id].resource.actionId < x.actionId
  {
    var i := EntryHasIntent(rows, k, r, id);
    assert MakesRoom(rows, k, c, x, i);
  }

  lemma {:induction false} NewIntentExactly(rows: seq<Row>, k: Key, r: Reservation, x: Resource, c: Case)
    requires Booked(rows, k, r) && Running(rows, k, r)
    ensures NewIntent(r.resources, x, c) <==>
            && x.uid.None? && x.resourceVersion.None? && |IntentsOf(rows, k)| < 32
            && forall i :: 0 <= i < |rows| && Intended(rows[i], k) ==> MakesRoom(rows, k, c, x, i)
  {
    if NewIntent(r.resources, x, c) {
      forall i | 0 <= i < |rows| && Intended(rows[i], k)
        ensures MakesRoom(rows, k, c, x, i)
      {
        IntentMakesRoom(rows, k, r, x, c, i);
      }
    }
    if forall i :: 0 <= i < |rows| && Intended(rows[i], k) ==> MakesRoom(rows, k, c, x, i) {
      forall id | id in r.resources
        ensures id != x.id && r.resources[id].created && r.resources[id].resource.manifestDigest != x.manifestDigest
        ensures r.resources[id].operation == c ==> r.resources[id].resource.actionId < x.actionId
      {
        EntryMakesRoom(rows, k, r, x, c, id);
      }
    }
  }

  lemma {:induction false} UidsExactly(rows: seq<Row>, k: Key, r: Reservation, uid: string)
    requires Booked(rows, k, r)
    ensures (forall id :: id in r.resources ==> r.resources[id].resource.uid != Some(uid)) <==>
            NewUid(rows, k, Some(uid))
  {
    if forall id :: id in r.resources ==> r.resources[id].resource.uid != Some(uid) {
      forall i | 0 <= i < |rows| && Confirmed(rows[i], k)
        ensures rows[i].resource.value.uid != Some(uid)
      {
        assert CreatedBooked(rows, k, r, i);
      }
    }
    if NewUid(rows, k, Some(uid)) {
      forall id | id in r.resources
        ensures r.resources[id].resource.uid != Some(uid)
      {
        var i := EntryHasIntent(rows, k, r, id);
        assert IntentBooked(rows, k, r, i);
        if r.resources[id].created {
          var c :| i < c < |rows| && Confirmed(rows[c], k) && rows[c].resource.value.id == id;
          assert CreatedBooked(rows, k, r, c);
        }
      }
    }
  }

  lemma {:induction false} OpenIntentExactly(rows: seq<Row>, k: Key, r: Reservation, x: Resource, c: Case)
    requires Booked(rows, k, r)
    ensures (x.id in r.resources && !r.resources[x.id].created && r.resources[x.id].operation == c && Bare(r.resources[x.id].resource) == Bare(x))
            <==> exists i :: OpenIntent(rows, k, c, x, i)
  {
    if x.id in r.resources && !r.resources[x.id].created && r.resources[x.id].operation == c && Bare(r.resources[x.id].resource) == Bare(x) {
      var i := EntryHasIntent(rows, k, r, x.id);
      assert OpenIntent(rows, k, c, x, i);
    }
    if exists i :: OpenIntent(rows, k, c, x, i) {
      var i :| OpenIntent(rows, k, c, x, i);
      assert IntentBooked(rows, k, r, i);
    }
  }

  lemma {:induction false} ConfirmsExactly(rows: seq<Row>, k: Key, r: Reservation, x: Resource, c: Case)
    requires Booked(rows, k, r)
    ensures ConfirmsIntent(r.resources, x, c) <==> Assigns(rows, k, c, x)
  {
    OpenIntentExactly(rows, k, r, x, c);
    if x.uid.Some? {
      UidsExactly(rows, k, r, x.uid.value);
    }
  }

  lemma {:induction false} ResourceUnfolds(r: Reservation, row: Row, c: Case)
    requires row.operation == Some(c)
    ensures ResourceTransition(r, row).Some? <==>
            && row.cleanup.None? && row.resource.Some? && r.current == Some(c) && ResourceShape(row.resource.value)
            && (if row.state == CREATE_INTENT then NewIntent(r.resources, row.resource.value, c)
                else ConfirmsIntent(r.resources, row.resource.value, c))
  {
  }

  lemma {:induction false} IntentExactly(w: Primitives, rows: seq<Row>, r: Reservation, row: Row, c: Case)
    requires Tracks(w, rows, KeyOf(row), r) && Running(rows, KeyOf(row), r) && Booked(rows, KeyOf(row), r)
    requires row.operation == Some(c) && row.state == CREATE_INTENT
    ensures ResourceTransition(r, row).Some? && LastReceipt(rows, KeyOf(row), c).None? <==> MayIntend(rows, row, c)
  {
    ResourceUnfolds(r, row, c);
    InCaseExactly(w, rows, r, row, c);
    if row.resource.Some? {
      NewIntentExactly(rows, KeyOf(row), r, row.resource.value, c);
    }
  }

  lemma {:induction false} ConfirmationExactly(w: Primitives, rows: seq<Row>, r: Reservation, row: Row, c: Case)
    requires Tracks(w, rows, KeyOf(row), r) && Running(rows, KeyOf(row), r) && Booked(rows, KeyOf(row), r)
    requires row.operation == Some(c) && row.state == CREATED
    ensures ResourceTransition(r, row).Some? && LastReceipt(rows, KeyOf(row), c).None? <==> MayConfirm(rows, row, c)
  {
    ResourceUnfolds(r, row, c);
    InCaseExactly(w, rows, r, row, c);
    if row.resource.Some? {
      ConfirmsExactly(rows, KeyOf(row), r, row.resource.value, c);
    }
  }

  // ---------------------------------------------------------------- the theorem

  lemma {:induction false} ContinueUnfolds(w: Primitives, s: Ledger, prior: Reservation, row: Row)
    ensures Continue(w, s, prior, row).Some? <==>
            && row.binding == prior.binding && w.IsTime(row.observedAt) && prior.held && row.operation.Some?
            && prior.last <= w.Instant(row.observedAt)
            && match row.state
               case RESERVED => false
               case RUNNING => prior.current.None? && row.operation.value !in prior.done && row.cleanup.None?
               case RECORDED => RecordTransition(w, prior, row).Some?
               case _ => (KeyOf(row), row.operation.value) !in s.recorded && ResourceTransition(prior, row).Some?
  {
  }

  lemma {:induction false} ContinueExactly(w: Primitives, rows: seq<Row>, s: Ledger, r: Reservation, row: Row)
    requires Tracks(w, rows, KeyOf(row), r) && Running(rows, KeyOf(row), r) && Told(w, rows, KeyOf(row), r) && Booked(rows, KeyOf(row), r)
    requires w.IsTime(row.observedAt)
    requires row.operation.Some? ==> ((KeyOf(row), row.operation.value) in s.recorded <==> LastReceipt(rows, KeyOf(row), row.operation.value).Some?)
    ensures Continue(w, s, r, row).Some? <==>
            SameRun(w, rows, row) && row.operation.Some? && MayContinue(w, rows, row, row.operation.value)
  {
    ContinueUnfolds(w, s, r, row);
    SameRunExactly(w, rows, r, row);
    if row.operation.Some? {
      var c := row.operation.value;
      match row.state
      case RESERVED =>
      case RUNNING => RunExactly(w, rows, r, row, c);
      case RECORDED => RecordExactly(w, rows, r, row, c);
      case CREATE_INTENT => IntentExactly(w, rows, r, row, c);
      case CREATED => ConfirmationExactly(w, rows, r, row, c);
    }
  }

  lemma {:induction false} StepUnfolds(w: Primitives, rows: seq<Row>, s: Ledger, row: Row)
    requires s.count == |rows| && s.previous == (if rows == [] then ZERO else RowDigest(w, Last(rows)))
    ensures Step(w, s, row).Some? <==>
            Linked(w, rows, row) && (if KeyOf(row) in s.reservations then Continue(w, s, s.reservations[KeyOf(row)], row).Some? else Open(w, s, row).Some?)
  {
  }

  lemma {:induction false} LaterNeedsKnown(w: Primitives, rows: seq<Row>, row: Row)
    ensures SameRun(w, rows, row) ==> Known(rows, KeyOf(row))
    ensures MayReserve(rows, row) ==> !Known(rows, KeyOf(row))
  {
  }

  lemma {:induction false} StepExactly(w: Primitives, rows: seq<Row>, s: Ledger, row: Row)
    requires s.count == |rows| && Consistent(w, rows, s) && Tells(w, rows, s)
    requires KeyOf(row) in s.reservations ==> Booked(rows, KeyOf(row), s.reservations[KeyOf(row)])
    ensures Step(w, s, row).Some? <==> MayFollow(w, rows, row)
  {
    StepUnfolds(w, rows, s, row);
    KnownExactly(w, rows, s, KeyOf(row));
    LaterNeedsKnown(w, rows, row);
    if w.IsTime(row.observedAt) {
      if KeyOf(row) in s.reservations {
        ContinueExactly(w, rows, s, s.reservations[KeyOf(row)], row);
      } else {
        OpenExactly(w, rows, s, row);
      }
    }
  }

  /** After an accepted history a row is accepted if and only if the rows before it allow it. */
  lemma {:induction false} AcceptedExactly(w: Primitives, rows: seq<Row>, row: Row)
    requires Replay(w, rows).Some?
    ensures Replay(w, rows + [row]).Some? <==> MayFollow(w, rows, row)
  {
    var s := Replay(w, rows).value;
    assert (rows + [row])[..|rows|] == rows;
    ReplayConsistent(w, rows);
    ReplayTells(w, rows);
    if KeyOf(row) in s.reservations {
      ReplayBooked(w, rows, KeyOf(row));
    }
    StepExactly(w, rows, s, row);
  }

  /** A row of at most 32 KiB, in a file of at most 4096 rows and 4 MiB. */
  predicate FitsIn(raw: string, rows: seq<Row>, row: Row) {
    |F.RowText(row)| <= 32768 && |raw| + |F.RowText(row)| + 1 <= 4194304 && |rows| < 4096
  }

  /**
    The same for the file: one more printed row is accepted if and only if it fits the bounds and the rows
    already in the file allow it.
   */
  lemma {:induction false} FileAcceptedExactly(w: Primitives, raw: string, row: Row)
    requires F.Accepted(w, raw).Some?
    ensures F.Rows(raw).Some?
    ensures F.Accepted(w, raw + (F.RowText(row) + "\n")).Some? <==>
            FitsIn(raw, F.Rows(raw).value, row) && MayFollow(w, F.Rows(raw).value, row)
  {
    F.AcceptedRows(w, raw);
    F.AppendAccepted(w, raw, row);
    var rows := F.Rows(raw).value;
    assert (rows + [row])[..|rows|] == rows;
    AcceptedExactly(w, rows, row);
  }

  // ---------------------------------------------------------------- requests

  /** The row of a request: the next link of the chain, about the given binding. */
  function Asked(w: Primitives, rows: seq<Row>, b: Binding, state: RowState, operation: Option<Case>, now: string,
                 cleanup: Option<Receipt>, resource: Option<Resource>): Row
  {
    Row(|rows| + 1, if rows == [] then ZERO else RowDigest(w, Last(rows)), b, state, operation, now, cleanup, resource)
  }

  /** A transaction over an accepted file has a row to append, this one, if and only if it fits the bounds and may follow. */
  lemma {:induction false} DecidedExactly(w: Primitives, raw: string, b: Binding, state: RowState, operation: Option<Case>, now: string,
                                          cleanup: Option<Receipt>, resource: Option<Resource>)
    requires F.Accepted(w, raw).Some?
    ensures F.Rows(raw).Some?
    ensures var rows := F.Rows(raw).value;
            var row := Asked(w, rows, b, state, operation, now, cleanup, resource);
            F.Decide(w, raw, b, state, operation, now, cleanup, resource) ==
            if FitsIn(raw, rows, row) && MayFollow(w, rows, row) then Some(row) else None
  {
    F.AcceptedRows(w, raw);
    var rows := F.Rows(raw).value;
    ReplayTells(w, rows);
    FileAcceptedExactly(w, raw, Asked(w, rows, b, state, operation, now, cleanup, resource));
  }
}
