/** The life of every cluster resource in an accepted admission ledger, read off the rows. */
module AdmissionResources {
  import opened Prelude
  import opened Digests
  import opened Cases
  import opened AdmissionLedger
  import opened AdmissionHistory

  predicate Confirmed(r: Row, k: Key) {
    KeyOf(r) == k && r.state == CREATED && r.resource.Some?
  }

  /** A resource without what the API assigned. */
  function Bare(r: Resource): Resource {
    r.(uid := None, resourceVersion := None)
  }

  predicate ConfirmedIn(rows: seq<Row>, k: Key, id: Identity, lo: nat) {
    exists c :: lo < c < |rows| && Confirmed(rows[c], k) && rows[c].resource.value.id == id
  }

  // ---------------------------------------------------------------- rows and entries agree

  predicate IntentBooked(rows: seq<Row>, k: Key, r: Reservation, i: nat)
    requires i < |rows| && Intended(rows[i], k)
  {
    var x := rows[i].resource.value;
    && x.id in r.resources && rows[i].operation == Some(r.resources[x.id].operation)
    && Bare(r.resources[x.id].resource) == x
    && (r.resources[x.id].created <==> ConfirmedIn(rows, k, x.id, i))
    && (!r.resources[x.id].created ==> r.resources[x.id].resource == x)
  }

  predicate CreatedBooked(rows: seq<Row>, k: Key, r: Reservation, c: nat)
    requires c < |rows| && Confirmed(rows[c], k)
  {
    var x := rows[c].resource.value;
    x.id in r.resources && r.resources[x.id].created && r.resources[x.id].resource == x && x.uid.Some?
  }

  predicate Intending(rows: seq<Row>, k: Key, x: Resource) {
    exists i :: 0 <= i < |rows| && Intended(rows[i], k) && rows[i].resource.value == x
  }

  ghost predicate Booked(rows: seq<Row>, k: Key, r: Reservation) {
    && (forall i :: 0 <= i < |rows| && Intended(rows[i], k) ==> IntentBooked(rows, k, r, i))
    && (forall c :: 0 <= c < |rows| && Confirmed(rows[c], k) ==> CreatedBooked(rows, k, r, c))
    && (forall id :: id in r.resources ==> r.resources[id].resource.id == id && Intending(rows, k, Bare(r.resources[id].resource)))
  }

  // ---------------------------------------------------------------- one row more

  lemma {:induction false} ConfirmedMore(rows: seq<Row>, row: Row, k: Key, id: Identity, lo: nat)
    requires lo < |rows|
    ensures ConfirmedIn(rows + [row], k, id, lo) <==> ConfirmedIn(rows, k, id, lo) || (Confirmed(row, k) && row.resource.value.id == id)
  {
    var all := rows + [row];
    if ConfirmedIn(rows, k, id, lo) {
      var c :| lo < c < |rows| && Confirmed(rows[c], k) && rows[c].resource.value.id == id;
      assert all[c] == rows[c];
    }
    if Confirmed(row, k) && row.resource.value.id == id {
      assert all[|rows|] == row;
    }
  }

  lemma {:induction false} IntendingMore(rows: seq<Row>, row: Row, k: Key, x: Resource)
    ensures Intending(rows, k, x) ==> Intending(rows + [row], k, x)
    ensures Intended(row, k) && row.resource.value == x ==> Intending(rows + [row], k, x)
  {
    var all := rows + [row];
    if Intending(rows, k, x) {
      var i :| 0 <= i < |rows| && Intended(rows[i], k) && rows[i].resource.value == x;
      assert all[i] == rows[i];
    }
    assert all[|rows|] == row;
  }

  /** A row that is no resource row of the key leaves everything as it was. */
  lemma {:induction false} OtherRowBooked(rows: seq<Row>, row: Row, k: Key, r: Reservation, next: Reservation)
    requires Booked(rows, k, r) && !Intended(row, k) && !Confirmed(row, k) && next.resources == r.resources
    ensures Booked(rows + [row], k, next)
  {
    var all := rows + [row];
    forall i | 0 <= i < |all| && Intended(all[i], k)
      ensures IntentBooked(all, k, next, i)
    {
      assert i < |rows| && all[i] == rows[i] && IntentBooked(rows, k, r, i);
      ConfirmedMore(rows, row, k, rows[i].resource.value.id, i);
    }
    forall c | 0 <= c < |all| && Confirmed(all[c], k)
      ensures CreatedBooked(all, k, next, c)
    {
      assert c < |rows| && all[c] == rows[c] && CreatedBooked(rows, k, r, c);
    }
    forall id | id in next.resources
      ensures next.resources[id].resource.id == id && Intending(all, k, Bare(next.resources[id].resource))
    {
      IntendingMore(rows, row, k, Bare(next.resources[id].resource));
    }
  }

  lemma {:induction false} IntentRowBooked(rows: seq<Row>, row: Row, k: Key, r: Reservation)
    requires Booked(rows, k, r) && Intended(row, k) && row.operation.Some? && ResourceTransition(r, row).Some?
    ensures Booked(rows + [row], k, ResourceTransition(r, row).value)
  {
    var all, x, next := rows + [row], row.resource.value, ResourceTransition(r, row).value;
    assert x.id !in r.resources && next.resources == r.resources[x.id := Entry(x, row.operation.value, false)];
    forall i | 0 <= i < |all| && Intended(all[i], k)
      ensures IntentBooked(all, k, next, i)
    {
      if i < |rows| {
        assert all[i] == rows[i] && IntentBooked(rows, k, r, i);
        ConfirmedMore(rows, row, k, rows[i].resource.value.id, i);
      }
    }
    forall c | 0 <= c < |all| && Confirmed(all[c], k)
      ensures CreatedBooked(all, k, next, c)
    {
      assert c < |rows| && all[c] == rows[c] && CreatedBooked(rows, k, r, c);
    }
    forall id | id in next.resources
      ensures next.resources[id].resource.id == id && Intending(all, k, Bare(next.resources[id].resource))
    {
      IntendingMore(rows, row, k, Bare(next.resources[id].resource));
    }
  }

  lemma {:induction false} CreatedRowBooked(rows: seq<Row>, row: Row, k: Key, r: Reservation)
    requires Booked(rows, k, r) && Confirmed(row, k) && row.operation.Some? && ResourceTransition(r, row).Some?
    ensures Booked(rows + [row], k, ResourceTransition(r, row).value)
  {
    var all, x, next := rows + [row], row.resource.value, ResourceTransition(r, row).value;
    assert x.id in r.resources && !r.resources[x.id].created && next.resources == r.resources[x.id := Entry(x, row.operation.value, true)];
    forall i | 0 <= i < |all| && Intended(all[i], k)
      ensures IntentBooked(all, k, next, i)
    {
      assert i < |rows| && all[i] == rows[i] && IntentBooked(rows, k, r, i);
      ConfirmedMore(rows, row, k, rows[i].resource.value.id, i);
    }
    forall c | 0 <= c < |all| && Confirmed(all[c], k)
      ensures CreatedBooked(all, k, next, c)
    {
      if c < |rows| {
        assert all[c] == rows[c] && CreatedBooked(rows, k, r, c);
      }
    }
    forall id | id in next.resources
      ensures next.resources[id].resource.id == id && Intending(all, k, Bare(next.resources[id].resource))
    {
      assert Bare(next.resources[id].resource) == Bare(r.resources[id].resource);
      IntendingMore(rows, row, k, Bare(r.resources[id].resource));
    }
  }

  // ---------------------------------------------------------------- every accepted ledger

  lemma {:induction false} StepOutcome(w: Primitives, s: Ledger, row: Row, k: Key)
    requires Step(w, s, row).Some? && k in Step(w, s, row).value.reservations
    ensures KeyOf(row) != k ==> k in s.reservations && Step(w, s, row).value.reservations[k] == s.reservations[k]
    ensures KeyOf(row) == k && k !in s.reservations ==> row.state == RESERVED && Step(w, s, row).value.reservations[k].resources == map[]
    ensures KeyOf(row) == k && k in s.reservations && row.state != CREATE_INTENT && row.state != CREATED ==>
              Step(w, s, row).value.reservations[k].resources == s.reservations[k].resources
    ensures KeyOf(row) == k && k in s.reservations && (row.state == CREATE_INTENT || row.state == CREATED) ==>
              && row.operation.Some? && row.resource.Some? && ResourceTransition(s.reservations[k], row).Some?
              && Step(w, s, row).value.reservations[k].resources == ResourceTransition(s.reservations[k], row).value.resources
  {
  }

  lemma {:induction false} SameResources(rows: seq<Row>, k: Key, r: Reservation, next: Reservation)
    requires Booked(rows, k, r) && next.resources == r.resources
    ensures Booked(rows, k, next)
  {
    forall i | 0 <= i < |rows| && Intended(rows[i], k)
      ensures IntentBooked(rows, k, next, i)
    {
      assert IntentBooked(rows, k, r, i);
    }
    forall c | 0 <= c < |rows| && Confirmed(rows[c], k)
      ensures CreatedBooked(rows, k, next, c)
    {
      assert CreatedBooked(rows, k, r, c);
    }
  }

  lemma {:induction false} OnlyReserved(rows: seq<Row>, row: Row, k: Key, next: Reservation)
    requires (forall i :: 0 <= i < |rows| ==> KeyOf(rows[i]) != k) && row.state == RESERVED && next.resources == map[]
    ensures Booked(rows + [row], k, next)
  {
    assert forall i :: 0 <= i < |rows| ==> (rows + [row])[i] == rows[i];
  }

  lemma {:induction false} StepBooked(w: Primitives, rows: seq<Row>, row: Row, s: Ledger, k: Key)
    requires Step(w, s, row).Some? && k in Step(w, s, row).value.reservations
    requires if k in s.reservations then Booked(rows, k, s.reservations[k]) else forall i :: 0 <= i < |rows| ==> KeyOf(rows[i]) != k
    ensures Booked(rows + [row], k, Step(w, s, row).value.reservations[k])
  {
    StepOutcome(w, s, row, k);
    var next := Step(w, s, row).value.reservations[k];
    if k !in s.reservations {
      OnlyReserved(rows, row, k, next);
    } else if KeyOf(row) != k || (row.state != CREATE_INTENT && row.state != CREATED) {
      OtherRowBooked(rows, row, k, s.reservations[k], next);
    } else {
      if row.state == CREATE_INTENT {
        IntentRowBooked(rows, row, k, s.reservations[k]);
      } else {
        CreatedRowBooked(rows, row, k, s.reservations[k]);
      }
      SameResources(rows + [row], k, ResourceTransition(s.reservations[k], row).value, next);
    }
  }

  /** In every accepted ledger the entries of a reservation are exactly what its resource rows say. */
  lemma {:induction false} ReplayBooked(w: Primitives, rows: seq<Row>, k: Key)
    requires Replay(w, rows).Some? && k in Replay(w, rows).value.reservations
    ensures Booked(rows, k, Replay(w, rows).value.reservations[k])
  {
    if rows != [] {
      ReplayLast(w, rows);
      var s := Replay(w, Front(rows)).value;
      if k in s.reservations {
        ReplayBooked(w, Front(rows), k);
      } else {
        Unknown(w, Front(rows), s, k);
      }
      StepBooked(w, Front(rows), Last(rows), s, k);
      FrontAndLast(rows);
    }
  }

  lemma {:induction false} Unknown(w: Primitives, rows: seq<Row>, s: Ledger, k: Key)
    requires Replay(w, rows) == Some(s) && k !in s.reservations
    ensures forall i :: 0 <= i < |rows| ==> KeyOf(rows[i]) != k
  {
    ReplayConsistent(w, rows);
  }

  lemma {:induction false} FrontAndLast(rows: seq<Row>)
    requires rows != []
    ensures Front(rows) + [Last(rows)] == rows
  {
  }

  // ---------------------------------------------------------------- theorems

  /** The ledger a prefix of accepted rows replays to, and the step its next row makes. */
  lemma {:induction false} AtRow(w: Primitives, rows: seq<Row>, j: nat)
    requires Replay(w, rows).Some? && j < |rows|
    ensures Replay(w, rows[..j]).Some? && Step(w, Replay(w, rows[..j]).value, rows[j]).Some?
  {
    assert rows == rows[..j + 1] + rows[j + 1..];
    ReplayPrefix(w, rows[..j + 1], rows[j + 1..]);
    PrefixEnds(rows, j);
    ReplayLast(w, rows[..j + 1]);
  }

  lemma {:induction false} PrefixEnds(rows: seq<Row>, j: nat)
    requires j < |rows|
    ensures Front(rows[..j + 1]) == rows[..j] && Last(rows[..j + 1]) == rows[j]
  {
  }

  lemma {:induction false} KnownAtRow(w: Primitives, rows: seq<Row>, k: Key, i: nat, j: nat)
    requires Replay(w, rows).Some? && i < j < |rows| && KeyOf(rows[i]) == k
    ensures Replay(w, rows[..j]).Some? && Step(w, Replay(w, rows[..j]).value, rows[j]).Some?
    ensures k in Replay(w, rows[..j]).value.reservations && Booked(rows[..j], k, Replay(w, rows[..j]).value.reservations[k])
  {
    AtRow(w, rows, j);
    ReplayConsistent(w, rows[..j]);
    assert rows[..j][i] == rows[i];
    ReplayBooked(w, rows[..j], k);
  }

  lemma {:induction false} NewIntentFollows(w: Primitives, s: Ledger, row: Row, k: Key, id: Identity)
    requires Step(w, s, row).Some? && Intended(row, k) && k in s.reservations && id in s.reservations[k].resources
    ensures row.operation.Some? && id != row.resource.value.id && s.reservations[k].resources[id].created
    ensures s.reservations[k].resources[id].resource.manifestDigest != row.resource.value.manifestDigest
    ensures Some(s.reservations[k].resources[id].operation) == row.operation ==>
              s.reservations[k].resources[id].resource.actionId < row.resource.value.actionId
  {
  }

  /**
    Intents come one at a time: before the next intent of a reservation the previous one was confirmed; the
    two name different objects and different manifests, and within a case the action numbers grow.
   */
  lemma {:induction false} IntentsOneAtATime(w: Primitives, rows: seq<Row>, k: Key, i: nat, j: nat)
    requires Replay(w, rows).Some? && i < j < |rows| && Intended(rows[i], k) && Intended(rows[j], k)
    ensures ConfirmedIn(rows[..j], k, rows[i].resource.value.id, i)
    ensures rows[i].resource.value.id != rows[j].resource.value.id
    ensures rows[i].resource.value.manifestDigest != rows[j].resource.value.manifestDigest
    ensures rows[i].operation == rows[j].operation ==> rows[i].resource.value.actionId < rows[j].resource.value.actionId
  {
    KnownAtRow(w, rows, k, i, j);
    var s := Replay(w, rows[..j]).value;
    assert rows[..j][i] == rows[i] && IntentBooked(rows[..j], k, s.reservations[k], i);
    NewIntentFollows(w, s, rows[j], k, rows[i].resource.value.id);
  }

  lemma {:induction false} ConfirmationFollows(w: Primitives, s: Ledger, row: Row, k: Key)
    requires Step(w, s, row).Some? && Confirmed(row, k)
    ensures k in s.reservations && row.resource.value.id in s.reservations[k].resources
    ensures var e := s.reservations[k].resources[row.resource.value.id];
            !e.created && Bare(e.resource) == Bare(row.resource.value) && Some(e.operation) == row.operation
    ensures row.resource.value.uid.Some? && row.resource.value.resourceVersion.Some?
    ensures forall id :: id in s.reservations[k].resources ==> s.reservations[k].resources[id].resource.uid != row.resource.value.uid
  {
  }

  /** Every confirmation answers an earlier intent in all but the assigned identity, and no identity is assigned twice. */
  lemma {:induction false} ConfirmationHasItsIntent(w: Primitives, rows: seq<Row>, k: Key, c: nat)
    requires Replay(w, rows).Some? && c < |rows| && Confirmed(rows[c], k)
    ensures Intending(rows[..c], k, Bare(rows[c].resource.value))
    ensures forall d :: 0 <= d < c && Confirmed(rows[d], k) ==>
              rows[d].resource.value.id != rows[c].resource.value.id && rows[d].resource.value.uid != rows[c].resource.value.uid
  {
    AtRow(w, rows, c);
    var s := Replay(w, rows[..c]).value;
    ConfirmationFollows(w, s, rows[c], k);
    ReplayBooked(w, rows[..c], k);
    forall d | 0 <= d < c && Confirmed(rows[d], k)
      ensures rows[d].resource.value.id != rows[c].resource.value.id && rows[d].resource.value.uid != rows[c].resource.value.uid
    {
      assert rows[..c][d] == rows[d] && CreatedBooked(rows[..c], k, s.reservations[k], d);
    }
  }

  lemma {:induction false} ReceiptFollows(w: Primitives, s: Ledger, row: Row, k: Key, id: Identity)
    requires Step(w, s, row).Some? && Recorded(row, k) && k in s.reservations && Stuck(s.reservations[k])
    requires id in s.reservations[k].resources
    ensures row.cleanup.value.state == CLEANUP_PENDING
    ensures var x := s.reservations[k].resources[id].resource;
            (id, x.uid, x.manifestDigest) in Listed(row.cleanup.value.remaining)
  {
    var r := s.reservations[k];
    assert r.current == row.operation;
    assert id in ResourcesOf(r.resources, row.operation.value);
    assert (id, r.resources[id].resource.uid, r.resources[id].resource.manifestDigest) in Tracked(r.resources, row.operation.value);
    TrackedIsNotClean(w, r, row);
  }

  lemma {:induction false} FrontConfirmed(rows: seq<Row>, k: Key, id: Identity, i: nat, j: nat) returns (c: nat)
    requires j < |rows| && ConfirmedIn(rows[..j], k, id, i)
    ensures i < c < j && Confirmed(rows[c], k) && rows[c].resource.value.id == id && rows[..j][c] == rows[c]
  {
    c :| i < c < j && Confirmed(rows[..j][c], k) && rows[..j][c].resource.value.id == id;
  }

  /**
    A receipt recorded after an intent is never clean and lists that object: with its manifest, and with the
    uid of its confirmation or none if it was never confirmed.
   */
  lemma {:induction false} ReceiptListsEveryIntent(w: Primitives, rows: seq<Row>, k: Key, i: nat, j: nat)
    requires Replay(w, rows).Some? && i < j < |rows| && Intended(rows[i], k) && Recorded(rows[j], k)
    ensures rows[j].cleanup.value.state == CLEANUP_PENDING
    ensures var x, listed := rows[i].resource.value, Listed(rows[j].cleanup.value.remaining);
            if ConfirmedIn(rows[..j], k, x.id, i) then
              exists c :: i < c < j && Confirmed(rows[c], k) && rows[c].resource.value.id == x.id
                          && (x.id, rows[c].resource.value.uid, x.manifestDigest) in listed
            else (x.id, None, x.manifestDigest) in listed
  {
    KnownAtRow(w, rows, k, i, j);
    var s, x := Replay(w, rows[..j]).value, rows[i].resource.value;
    assert rows[..j][i] == rows[i] && IntentBooked(rows[..j], k, s.reservations[k], i);
    ReplayConsistent(w, rows[..j]);
    ReceiptFollows(w, s, rows[j], k, x.id);
    if ConfirmedIn(rows[..j], k, x.id, i) {
      var c := FrontConfirmed(rows, k, x.id, i, j);
      assert CreatedBooked(rows[..j], k, s.reservations[k], c);
    }
  }
}
