/** What every accepted admission ledger guarantees about its whole history and all its extensions. */
module AdmissionHistory {
  import opened Prelude
  import opened CanonicalJson
  import opened Digests
  import opened Cases
  import opened AdmissionLedger

  // ---------------------------------------------------------------- a key's history, read off the rows

  function Last(rows: seq<Row>): Row
    requires rows != []
  {
    rows[|rows| - 1]
  }

  function Front(rows: seq<Row>): seq<Row>
    requires rows != []
  {
    rows[..|rows| - 1]
  }

  predicate Ran(r: Row, k: Key) {
    KeyOf(r) == k && r.state == RUNNING && r.operation.Some?
  }

  predicate Recorded(r: Row, k: Key) {
    KeyOf(r) == k && r.state == RECORDED && r.operation.Some? && r.cleanup.Some?
  }

  predicate Intended(r: Row, k: Key) {
    KeyOf(r) == k && r.state == CREATE_INTENT && r.resource.Some?
  }

  /** The cases of the RUNNING rows, in order. */
  function RunsOf(rows: seq<Row>, k: Key): seq<Case> {
    if rows == [] then [] else RunsOf(Front(rows), k) + if Ran(Last(rows), k) then [Last(rows).operation.value] else []
  }

  /** The receipts of the RECORDED rows, in order. */
  function ReceiptsOf(rows: seq<Row>, k: Key): seq<Receipt> {
    if rows == [] then [] else ReceiptsOf(Front(rows), k) + if Recorded(Last(rows), k) then [Last(rows).cleanup.value] else []
  }

  /** The state of the last receipt recorded for one case. */
  function LastReceipt(rows: seq<Row>, k: Key, c: Case): Option<CleanState> {
    if rows == [] then None
    else if Recorded(Last(rows), k) && Last(rows).operation == Some(c) then Some(Last(rows).cleanup.value.state)
    else LastReceipt(Front(rows), k, c)
  }

  /** The manifest digests of the CREATE_INTENT rows, in order. */
  function IntentsOf(rows: seq<Row>, k: Key): seq<string> {
    if rows == [] then []
    else IntentsOf(Front(rows), k) + if Intended(Last(rows), k) then [Last(rows).resource.value.manifestDigest] else []
  }

  predicate Chained(w: Primitives, receipts: seq<Receipt>) {
    && (receipts != [] ==> receipts[0].previousReceiptDigest == ZERO)
    && (forall i :: 0 < i < |receipts| ==> receipts[i].previousReceiptDigest == ReceiptDigest(w, receipts[i - 1]))
  }

  // ---------------------------------------------------------------- the invariant of one reservation

  /** While any intent is on the books its case stays the current one. */
  predicate Stuck(r: Reservation) {
    forall id :: id in r.resources ==> r.current == Some(r.resources[id].operation)
  }

  predicate Digested(r: Reservation, digests: seq<string>) {
    && (forall id :: id in r.resources ==> r.resources[id].resource.manifestDigest in digests)
    && (forall d :: d in digests ==> exists id :: id in r.resources && r.resources[id].resource.manifestDigest == d)
    && (forall i, j :: 0 <= i < j < |digests| ==> digests[i] != digests[j])
  }

  ghost predicate Tracks(w: Primitives, rows: seq<Row>, k: Key, r: Reservation) {
    && r.done == RunsOf(rows, k) && Distinct(r.done)
    && (r.current.Some? ==> r.current.value in r.done)
    && (forall c :: c in r.done && Some(c) != r.current ==> LastReceipt(rows, k, c) == Some(CLEAN))
    && (r.held <==> !(|r.done| >= |CASES| && r.current.None?))
    && Chained(w, ReceiptsOf(rows, k))
    && r.cleanupDigest == (var all := ReceiptsOf(rows, k); if all == [] then ZERO else ReceiptDigest(w, all[|all| - 1]))
    && Stuck(r) && Digested(r, IntentsOf(rows, k))
  }

  predicate AtMostOneHeld(s: Ledger) {
    forall a, b :: a in s.reservations && b in s.reservations && s.reservations[a].held && s.reservations[b].held ==> a == b
  }

  ghost predicate Consistent(w: Primitives, rows: seq<Row>, s: Ledger) {
    && AtMostOneHeld(s)
    && (forall k :: k in s.reservations ==> Tracks(w, rows, k, s.reservations[k]))
    && (forall i :: 0 <= i < |rows| ==> KeyOf(rows[i]) in s.reservations)
  }

  // ---------------------------------------------------------------- one row keeps the invariant

  lemma {:induction false} OtherKeysHistory(rows: seq<Row>, k: Key)
    requires rows != [] && KeyOf(Last(rows)) != k
    ensures RunsOf(rows, k) == RunsOf(Front(rows), k)
    ensures ReceiptsOf(rows, k) == ReceiptsOf(Front(rows), k)
    ensures IntentsOf(rows, k) == IntentsOf(Front(rows), k)
    ensures forall c :: LastReceipt(rows, k, c) == LastReceipt(Front(rows), k, c)
  {
  }

  lemma {:induction false} OtherKeysUntouched(w: Primitives, rows: seq<Row>, k: Key, r: Reservation)
    requires rows != [] && KeyOf(Last(rows)) != k && Tracks(w, Front(rows), k, r)
    ensures Tracks(w, rows, k, r)
  {
    OtherKeysHistory(rows, k);
  }

  lemma {:induction false} NothingYet(rows: seq<Row>, k: Key)
    requires forall i :: 0 <= i < |rows| ==> KeyOf(rows[i]) != k
    ensures RunsOf(rows, k) == [] && ReceiptsOf(rows, k) == [] && IntentsOf(rows, k) == []
  {
    if rows != [] {
      NothingYet(Front(rows), k);
    }
  }

  /** A RESERVED row opens no case, records none and intends nothing. */
  lemma {:induction false} FirstRowHistory(rows: seq<Row>, k: Key)
    requires rows != [] && Last(rows).state == RESERVED && forall i :: 0 <= i < |rows| - 1 ==> KeyOf(rows[i]) != k
    ensures RunsOf(rows, k) == [] && ReceiptsOf(rows, k) == [] && IntentsOf(rows, k) == []
  {
    NothingYet(Front(rows), k);
  }

  lemma {:induction false} EmptyTracks(w: Primitives, rows: seq<Row>, k: Key, r: Reservation)
    requires RunsOf(rows, k) == [] && ReceiptsOf(rows, k) == [] && IntentsOf(rows, k) == []
    requires r.done == [] && r.current.None? && r.held && r.cleanupDigest == ZERO && r.resources == map[]
    ensures Tracks(w, rows, k, r)
  {
  }

  lemma {:induction false} OpenTracks(w: Primitives, rows: seq<Row>, s: Ledger)
    requires rows != [] && w.IsTime(Last(rows).observedAt) && Open(w, s, Last(rows)).Some?
    requires forall i :: 0 <= i < |rows| - 1 ==> KeyOf(rows[i]) != KeyOf(Last(rows))
    ensures Tracks(w, rows, KeyOf(Last(rows)), Open(w, s, Last(rows)).value)
  {
    FirstRowHistory(rows, KeyOf(Last(rows)));
    EmptyTracks(w, rows, KeyOf(Last(rows)), Open(w, s, Last(rows)).value);
  }

  lemma {:induction false} RunningTracks(w: Primitives, rows: seq<Row>, s: Ledger, prior: Reservation)
    requires rows != [] && Last(rows).state == RUNNING
    requires Tracks(w, Front(rows), KeyOf(Last(rows)), prior) && Continue(w, s, prior, Last(rows)).Some?
    ensures Tracks(w, rows, KeyOf(Last(rows)), Continue(w, s, prior, Last(rows)).value)
  {
    var k, c := KeyOf(Last(rows)), Last(rows).operation.value;
    RunningRow(w, s, prior, Last(rows));
    RunningHistory(rows, k, c);
    OneMoreCase(prior.done, c);
    assert prior.resources == map[];
    forall d | d in prior.done + [c] && d != c
      ensures LastReceipt(rows, k, d) == Some(CLEAN)
    {
      assert d in prior.done && LastReceipt(Front(rows), k, d) == Some(CLEAN);
    }
  }

  lemma {:induction false} RunningRow(w: Primitives, s: Ledger, prior: Reservation, row: Row)
    requires row.state == RUNNING && Continue(w, s, prior, row).Some?
    ensures row.operation.Some? && prior.current.None? && prior.held && row.operation.value !in prior.done
    ensures Continue(w, s, prior, row) == Some(prior.(current := row.operation, done := prior.done + [row.operation.value]))
  {
  }

  lemma {:induction false} RunningHistory(rows: seq<Row>, k: Key, c: Case)
    requires rows != [] && Last(rows).state == RUNNING && KeyOf(Last(rows)) == k && Last(rows).operation == Some(c)
    ensures RunsOf(rows, k) == RunsOf(Front(rows), k) + [c] && ReceiptsOf(rows, k) == ReceiptsOf(Front(rows), k)
    ensures IntentsOf(rows, k) == IntentsOf(Front(rows), k)
    ensures forall d :: LastReceipt(rows, k, d) == LastReceipt(Front(rows), k, d)
  {
  }

  lemma {:induction false} OneMoreCase(done: seq<Case>, c: Case)
    requires Distinct(done) && c !in done
    ensures Distinct(done + [c])
  {
  }

  /** A receipt for a case with resources on the books cannot be clean. */
  lemma {:induction false} TrackedIsNotClean(w: Primitives, prior: Reservation, row: Row)
    requires row.operation.Some? && RecordTransition(w, prior, row).Some?
    requires ResourcesOf(prior.resources, row.operation.value) != {}
    ensures row.cleanup.value.state == CLEANUP_PENDING
  {
  }

  lemma {:induction false} RecordedTracks(w: Primitives, rows: seq<Row>, s: Ledger, prior: Reservation)
    requires rows != [] && Last(rows).state == RECORDED
    requires Tracks(w, Front(rows), KeyOf(Last(rows)), prior) && Continue(w, s, prior, Last(rows)).Some?
    ensures Tracks(w, rows, KeyOf(Last(rows)), Continue(w, s, prior, Last(rows)).value)
  {
    var row := Last(rows);
    var k, c := KeyOf(row), row.operation.value;
    var receipt := row.cleanup.value;
    RecordedRow(w, prior, row);
    RecordedHistory(rows, k, c);
    if prior.resources != map[] {
      var id :| id in prior.resources;
      assert id in ResourcesOf(prior.resources, c);
      TrackedIsNotClean(w, prior, row);
    }
    forall d | d in prior.done && (receipt.state == CLEAN || d != c)
      ensures LastReceipt(rows, k, d) == Some(CLEAN)
    {
      if d != c {
        assert LastReceipt(Front(rows), k, d) == Some(CLEAN);
      }
    }
    ChainedMore(w, ReceiptsOf(Front(rows), k), receipt);
  }

  lemma {:induction false} RecordedRow(w: Primitives, prior: Reservation, row: Row)
    requires row.operation.Some? && RecordTransition(w, prior, row).Some?
    ensures row.cleanup.Some? && prior.current == row.operation && row.cleanup.value.previousReceiptDigest == prior.cleanupDigest
    ensures RecordTransition(w, prior, row) ==
            Some(prior.(cleanupDigest := ReceiptDigest(w, row.cleanup.value),
                        current := if row.cleanup.value.state == CLEAN then None else row.operation,
                        held := |prior.done| < |CASES| || row.cleanup.value.state != CLEAN))
  {
  }

  lemma {:induction false} RecordedHistory(rows: seq<Row>, k: Key, c: Case)
    requires rows != [] && Last(rows).state == RECORDED && KeyOf(Last(rows)) == k
    requires Last(rows).operation == Some(c) && Last(rows).cleanup.Some?
    ensures RunsOf(rows, k) == RunsOf(Front(rows), k) && IntentsOf(rows, k) == IntentsOf(Front(rows), k)
    ensures ReceiptsOf(rows, k) == ReceiptsOf(Front(rows), k) + [Last(rows).cleanup.value]
    ensures LastReceipt(rows, k, c) == Some(Last(rows).cleanup.value.state)
    ensures forall d :: d != c ==> LastReceipt(rows, k, d) == LastReceipt(Front(rows), k, d)
  {
  }

  lemma {:induction false} ChainedMore(w: Primitives, all: seq<Receipt>, receipt: Receipt)
    requires Chained(w, all)
    requires receipt.previousReceiptDigest == if all == [] then ZERO else ReceiptDigest(w, all[|all| - 1])
    ensures Chained(w, all + [receipt])
  {
  }

  lemma {:induction false} IntentDigested(prior: Reservation, row: Row, digests: seq<string>)
    requires row.operation.Some? && row.state == CREATE_INTENT && ResourceTransition(prior, row).Some?
    requires Digested(prior, digests)
    ensures Digested(ResourceTransition(prior, row).value, digests + [row.resource.value.manifestDigest])
  {
    var r, next := row.resource.value, ResourceTransition(prior, row).value;
    forall d | d in digests
      ensures d != r.manifestDigest
      ensures exists id :: id in next.resources && next.resources[id].resource.manifestDigest == d
    {
      var id :| id in prior.resources && prior.resources[id].resource.manifestDigest == d;
      assert id in next.resources && next.resources[id].resource.manifestDigest == d;
    }
    assert r.id in next.resources;
    forall i | 0 <= i < |digests|
      ensures digests[i] != r.manifestDigest
    {
      assert digests[i] in digests;
    }
  }

  lemma {:induction false} CreatedDigested(prior: Reservation, row: Row, digests: seq<string>)
    requires row.operation.Some? && row.state == CREATED && ResourceTransition(prior, row).Some?
    requires Digested(prior, digests)
    ensures Digested(ResourceTransition(prior, row).value, digests)
  {
    var r, next := row.resource.value, ResourceTransition(prior, row).value;
    assert prior.resources[r.id].resource.manifestDigest == r.manifestDigest;
    forall d | d in digests
      ensures exists id :: id in next.resources && next.resources[id].resource.manifestDigest == d
    {
      var id :| id in prior.resources && prior.resources[id].resource.manifestDigest == d;
      assert id in next.resources && next.resources[id].resource.manifestDigest == d;
    }
  }

  lemma {:induction false} ResourceRowHistory(rows: seq<Row>, k: Key)
    requires rows != [] && (Last(rows).state == CREATE_INTENT || Last(rows).state == CREATED)
    ensures RunsOf(rows, k) == RunsOf(Front(rows), k) && ReceiptsOf(rows, k) == ReceiptsOf(Front(rows), k)
    ensures forall c :: LastReceipt(rows, k, c) == LastReceipt(Front(rows), k, c)
    ensures IntentsOf(rows, k) == IntentsOf(Front(rows), k) + if Intended(Last(rows), k) then [Last(rows).resource.value.manifestDigest] else []
  {
  }

  lemma {:induction false} IntentTracks(w: Primitives, rows: seq<Row>, s: Ledger, prior: Reservation)
    requires rows != [] && Last(rows).state == CREATE_INTENT
    requires Tracks(w, Front(rows), KeyOf(Last(rows)), prior) && Continue(w, s, prior, Last(rows)).Some?
    ensures Tracks(w, rows, KeyOf(Last(rows)), Continue(w, s, prior, Last(rows)).value)
  {
    var row, k := Last(rows), KeyOf(Last(rows));
    ResourceRowHistory(rows, k);
    IntentDigested(prior, row, IntentsOf(Front(rows), k));
  }

  lemma {:induction false} CreatedTracks(w: Primitives, rows: seq<Row>, s: Ledger, prior: Reservation)
    requires rows != [] && Last(rows).state == CREATED
    requires Tracks(w, Front(rows), KeyOf(Last(rows)), prior) && Continue(w, s, prior, Last(rows)).Some?
    ensures Tracks(w, rows, KeyOf(Last(rows)), Continue(w, s, prior, Last(rows)).value)
  {
    var row, k := Last(rows), KeyOf(Last(rows));
    ResourceRowHistory(rows, k);
    CreatedDigested(prior, row, IntentsOf(Front(rows), k));
  }

  lemma {:induction false} ResourceTracks(w: Primitives, rows: seq<Row>, s: Ledger, prior: Reservation)
    requires rows != [] && (Last(rows).state == CREATE_INTENT || Last(rows).state == CREATED)
    requires Tracks(w, Front(rows), KeyOf(Last(rows)), prior) && Continue(w, s, prior, Last(rows)).Some?
    ensures Tracks(w, rows, KeyOf(Last(rows)), Continue(w, s, prior, Last(rows)).value)
  {
    if Last(rows).state == CREATE_INTENT {
      IntentTracks(w, rows, s, prior);
    } else {
      CreatedTracks(w, rows, s, prior);
    }
  }

  lemma {:induction false} ContinueTracks(w: Primitives, rows: seq<Row>, s: Ledger, prior: Reservation)
    requires rows != [] && Tracks(w, Front(rows), KeyOf(Last(rows)), prior) && Continue(w, s, prior, Last(rows)).Some?
    ensures Tracks(w, rows, KeyOf(Last(rows)), Continue(w, s, prior, Last(rows)).value)
  {
    match Last(rows).state
    case RUNNING => RunningTracks(w, rows, s, prior);
    case RECORDED => RecordedTracks(w, rows, s, prior);
    case RESERVED =>
    case _ => ResourceTracks(w, rows, s, prior);
  }

  lemma {:induction false} StepConsistent(w: Primitives, rows: seq<Row>, s: Ledger)
    requires rows != [] && Consistent(w, Front(rows), s) && Step(w, s, Last(rows)).Some?
    ensures Consistent(w, rows, Step(w, s, Last(rows)).value)
  {
    var row, next := Last(rows), Step(w, s, Last(rows)).value;
    var k := KeyOf(row);
    forall other | other in next.reservations
      ensures Tracks(w, rows, other, next.reservations[other])
    {
      if other != k {
        OtherKeysUntouched(w, rows, other, s.reservations[other]);
      } else {
        StepTracks(w, rows, s);
      }
    }
    forall i | 0 <= i < |rows|
      ensures KeyOf(rows[i]) in next.reservations
    {
      assert i < |rows| - 1 ==> rows[i] == Front(rows)[i];
    }
    HeldStaysSingle(w, s, row);
  }

  lemma {:induction false} StepTracks(w: Primitives, rows: seq<Row>, s: Ledger)
    requires rows != [] && Consistent(w, Front(rows), s) && Step(w, s, Last(rows)).Some?
    ensures Tracks(w, rows, KeyOf(Last(rows)), Step(w, s, Last(rows)).value.reservations[KeyOf(Last(rows))])
  {
    var k := KeyOf(Last(rows));
    if k in s.reservations {
      ContinueTracks(w, rows, s, s.reservations[k]);
    } else {
      assert forall i :: 0 <= i < |rows| - 1 ==> KeyOf(rows[i]) == KeyOf(Front(rows)[i]);
      OpenTracks(w, rows, s);
    }
  }

  lemma {:induction false} HeldStaysSingle(w: Primitives, s: Ledger, row: Row)
    requires AtMostOneHeld(s) && Step(w, s, row).Some?
    ensures AtMostOneHeld(Step(w, s, row).value)
  {
  }

  /** Every accepted ledger is consistent. */
  lemma {:induction false} ReplayConsistent(w: Primitives, rows: seq<Row>)
    requires Replay(w, rows).Some?
    ensures Consistent(w, rows, Replay(w, rows).value)
  {
    if rows != [] {
      ReplayConsistent(w, Front(rows));
      StepConsistent(w, rows, Replay(w, Front(rows)).value);
    }
  }

  // ---------------------------------------------------------------- theorems

  /** At most one reservation holds the capacity. */
  lemma {:induction false} OneReservationHeld(w: Primitives, rows: seq<Row>, a: Key, b: Key)
    requires Replay(w, rows).Some?
    requires a in Replay(w, rows).value.reservations && Replay(w, rows).value.reservations[a].held
    requires b in Replay(w, rows).value.reservations && Replay(w, rows).value.reservations[b].held
    ensures a == b
  {
    ReplayConsistent(w, rows);
  }

  function Count(runs: seq<Case>, c: Case): nat {
    multiset(runs)[c]
  }

  lemma {:induction false} DistinctCount(runs: seq<Case>, c: Case)
    requires Distinct(runs)
    ensures Count(runs, c) == if c in runs then 1 else 0
  {
    if runs != [] {
      var t := runs[..|runs| - 1];
      DistinctCount(t, c);
      assert runs == t + [runs[|runs| - 1]];
    }
  }

  /**
    A released reservation has run each of the ten cases exactly once, the last receipt of each case
    is clean, and its receipts form one chain from ZERO.
   */
  lemma {:induction false} ReleasedMeansTenCleanCases(w: Primitives, rows: seq<Row>, k: Key, c: Case)
    requires Replay(w, rows).Some? && k in Replay(w, rows).value.reservations
    requires !Replay(w, rows).value.reservations[k].held
    ensures Count(RunsOf(rows, k), c) == 1
    ensures LastReceipt(rows, k, c) == Some(CLEAN)
    ensures Chained(w, ReceiptsOf(rows, k))
    ensures IntentsOf(rows, k) == []
  {
    ReplayConsistent(w, rows);
    ReleasedTracks(w, rows, k, Replay(w, rows).value.reservations[k], c);
  }

  lemma {:induction false} ReleasedTracks(w: Primitives, rows: seq<Row>, k: Key, r: Reservation, c: Case)
    requires Tracks(w, rows, k, r) && !r.held
    ensures Count(RunsOf(rows, k), c) == 1 && LastReceipt(rows, k, c) == Some(CLEAN)
    ensures Chained(w, ReceiptsOf(rows, k)) && IntentsOf(rows, k) == []
  {
    DistinctSize(r.done);
    TenAreAll(Members(r.done));
    EveryCase(c);
    assert c in r.done;
    DistinctCount(r.done, c);
    assert r.resources == map[];
    if IntentsOf(rows, k) != [] {
      assert IntentsOf(rows, k)[0] in IntentsOf(rows, k);
    }
  }

  /** A key in the ledger is never reserved again. */
  lemma {:induction false} KeyNeverReservedAgain(w: Primitives, rows: seq<Row>, next: Row, i: nat)
    requires Replay(w, rows).Some? && i < |rows| && KeyOf(rows[i]) == KeyOf(next) && next.state == RESERVED
    ensures Replay(w, rows + [next]).None?
  {
    ReplayConsistent(w, rows);
    assert (rows + [next])[..|rows|] == rows;
  }

  lemma {:induction false} ReplayPrefix(w: Primitives, rows: seq<Row>, more: seq<Row>)
    requires Replay(w, rows + more).Some?
    ensures Replay(w, rows).Some?
    decreases |more|
  {
    if more == [] {
      assert rows + more == rows;
    } else {
      assert Front(rows + more) == rows + Front(more);
      ReplayPrefix(w, rows, Front(more));
    }
  }

  lemma {:induction false} ReplayLast(w: Primitives, rows: seq<Row>)
    requires Replay(w, rows).Some? && rows != []
    ensures Replay(w, Front(rows)).Some? && Replay(w, rows) == Step(w, Replay(w, Front(rows)).value, Last(rows))
  {
  }

  lemma {:induction false} OnlyOneHeld(w: Primitives, rows: seq<Row>)
    requires Replay(w, rows).Some?
    ensures AtMostOneHeld(Replay(w, rows).value)
  {
    ReplayConsistent(w, rows);
  }

  /** The operation a ledger with an intent for `k` is stuck in. */
  ghost predicate StuckIn(s: Ledger, k: Key, operation: Case) {
    && k in s.reservations && s.reservations[k].resources != map[]
    && s.reservations[k].current == Some(operation) && s.reservations[k].held
    && Stuck(s.reservations[k])
  }

  lemma {:induction false} IntentSticks(w: Primitives, rows: seq<Row>, k: Key) returns (operation: Case)
    requires Replay(w, rows).Some? && IntentsOf(rows, k) != []
    ensures StuckIn(Replay(w, rows).value, k, operation)
  {
    ReplayConsistent(w, rows);
    var s := Replay(w, rows).value;
    if k !in s.reservations {
      NothingYet(rows, k);
    }
    operation := TracksStuck(w, rows, k, s.reservations[k]);
  }

  lemma {:induction false} TracksStuck(w: Primitives, rows: seq<Row>, k: Key, r: Reservation) returns (operation: Case)
    requires Tracks(w, rows, k, r) && IntentsOf(rows, k) != []
    ensures r.resources != map[] && r.current == Some(operation) && r.held && Stuck(r)
  {
    var digest := IntentsOf(rows, k)[0];
    assert digest in IntentsOf(rows, k);
    var id :| id in r.resources && r.resources[id].resource.manifestDigest == digest;
    operation := r.resources[id].operation;
  }

  /** A resource row or a receipt of one case of one reservation. */
  predicate BelongsTo(row: Row, k: Key, operation: Case) {
    KeyOf(row) == k && row.operation == Some(operation) && row.state in {CREATE_INTENT, CREATED, RECORDED}
  }

  lemma {:induction false} StuckHasTracked(r: Reservation, operation: Case)
    requires Stuck(r) && r.resources != map[] && r.current == Some(operation)
    ensures ResourcesOf(r.resources, operation) != {}
  {
    var id :| id in r.resources;
    assert id in ResourcesOf(r.resources, operation);
  }

  /** The next row of the whole ledger belongs to the stuck case. */
  lemma {:induction false} StuckRow(w: Primitives, s: Ledger, k: Key, operation: Case, row: Row)
    requires StuckIn(s, k, operation) && AtMostOneHeld(s) && Step(w, s, row).Some?
    ensures BelongsTo(row, k, operation)
  {
  }

  lemma {:induction false} StaysStuck(w: Primitives, s: Ledger, k: Key, operation: Case, row: Row)
    requires StuckIn(s, k, operation) && AtMostOneHeld(s) && Step(w, s, row).Some?
    ensures StuckIn(Step(w, s, row).value, k, operation)
    ensures BelongsTo(row, k, operation)
  {
    StuckRow(w, s, k, operation, row);
    StuckHasTracked(s.reservations[k], operation);
    if row.state == RECORDED {
      TrackedIsNotClean(w, s.reservations[k], row);
    }
  }

  /**
    Once a CREATE_INTENT is on the books its reservation is held in every accepted extension, stays in
    the same case, and every further row of the whole ledger is a resource row or receipt of that case:
    no RUNNING row for it, no row for any other key, no RESERVED row at all.
   */
  lemma {:induction false} IntentHoldsForever(w: Primitives, rows: seq<Row>, more: seq<Row>, k: Key)
    requires IntentsOf(rows, k) != [] && Replay(w, rows + more).Some?
    ensures k in Replay(w, rows + more).value.reservations && Replay(w, rows + more).value.reservations[k].held
    ensures Replay(w, rows + more).value.reservations[k].current.Some?
    ensures forall i :: 0 <= i < |more| ==> BelongsTo(more[i], k, Replay(w, rows + more).value.reservations[k].current.value)
  {
    ReplayPrefix(w, rows, more);
    var operation := IntentSticks(w, rows, k);
    IntentHoldsIn(w, rows, more, k, operation);
  }

  predicate AllBelong(rows: seq<Row>, k: Key, operation: Case) {
    forall i :: 0 <= i < |rows| ==> BelongsTo(rows[i], k, operation)
  }

  lemma {:induction false} AllBelongMore(rows: seq<Row>, k: Key, operation: Case)
    requires rows != [] && AllBelong(Front(rows), k, operation) && BelongsTo(Last(rows), k, operation)
    ensures AllBelong(rows, k, operation)
  {
    forall i | 0 <= i < |rows|
      ensures BelongsTo(rows[i], k, operation)
    {
      assert i < |rows| - 1 ==> rows[i] == Front(rows)[i];
    }
  }

  lemma {:induction false} StuckStep(w: Primitives, s: Option<Ledger>, next: Option<Ledger>, k: Key, operation: Case, row: Row)
    requires s.Some? && StuckIn(s.value, k, operation) && AtMostOneHeld(s.value)
    requires next.Some? && next == Step(w, s.value, row)
    ensures StuckIn(next.value, k, operation) && BelongsTo(row, k, operation)
  {
    StaysStuck(w, s.value, k, operation, row);
  }

  lemma {:induction false} IntentHoldsIn(w: Primitives, rows: seq<Row>, more: seq<Row>, k: Key, operation: Case)
    requires Replay(w, rows).Some? && StuckIn(Replay(w, rows).value, k, operation) && Replay(w, rows + more).Some?
    ensures StuckIn(Replay(w, rows + more).value, k, operation)
    ensures AllBelong(more, k, operation)
    decreases |more|
  {
    if more == [] {
      assert rows + more == rows;
    } else {
      FrontOfSum(rows, more);
      ReplayLast(w, rows + more);
      IntentHoldsIn(w, rows, Front(more), k, operation);
      OnlyOneHeld(w, rows + Front(more));
      StuckStep(w, Replay(w, rows + Front(more)), Replay(w, rows + more), k, operation, Last(more));
      AllBelongMore(more, k, operation);
    }
  }

  lemma {:induction false} FrontOfSum(rows: seq<Row>, more: seq<Row>)
    requires more != []
    ensures Front(rows + more) == rows + Front(more) && Last(rows + more) == Last(more)
  {
  }
}
