/** When the journal takes a row and when it grants a request, read off the rows the file holds. */
module JournalRules {
  import opened Prelude
  import opened CanonicalJson
  import opened Digests
  import opened Lines
  import opened ReplayJournal

  // ---------------------------------------------------------------- the rules

  /** What may follow the rows of one key. */
  predicate NextState(life: seq<Row>, state: State) {
    if life == [] then state == RESERVED
    else if |life| == 1 then state in {RUNNING, FAILED, CANCELLED, EXPIRED}
    else |life| == 2 && life[1].state == RUNNING && state in {COMPLETED, FAILED, CANCELLED, EXPIRED}
  }

  /** The digest a next row must carry. */
  function LastDigest(w: Primitives, rows: seq<Row>): string {
    if rows == [] then ZERO else w.hash(Encode(RowJson(rows[|rows| - 1])))
  }

  /** Digests and time are well formed, and exactly the terminal rows carry the digest of a receipt. */
  predicate Shaped(w: Primitives, r: Row) {
    && IsDigest(r.replayKey) && IsDigest(r.bindingDigest) && w.IsTime(r.observedAt)
    && (r.receiptDigest.Some? <==> r.state !in {RESERVED, RUNNING})
    && (r.receiptDigest.Some? ==> IsDigest(r.receiptDigest.value))
  }

  /** The binding is the one reserved, and the time not earlier than the key's last. */
  predicate Continues(w: Primitives, life: seq<Row>, bindingDigest: string, instant: int) {
    life != [] ==>
      var last := life[|life| - 1];
      last.bindingDigest == bindingDigest && w.IsTime(last.observedAt) && instant >= w.Instant(last.observedAt)
  }

  /** A row the journal may hold next. */
  predicate MayFollow(w: Primitives, rows: seq<Row>, r: Row) {
    var life := RowsOfKey(rows, r.replayKey);
    && r.sequence == |rows| + 1 && r.previousDigest == LastDigest(w, rows) && Shaped(w, r)
    && NextState(life, r.state) && Continues(w, life, r.bindingDigest, w.Instant(r.observedAt))
  }

  /** One more line of at most 2048 characters in a file of at most 4096 lines and 4 MiB. */
  predicate HasRoom(raw: string, rows: seq<Row>, r: Row) {
    |rows| < 4096 && |RowText(r)| + 1 <= 2048 && |raw| + |RowText(r)| + 1 <= 4 * 1024 * 1024
  }

  /** A request the journal grants. */
  predicate MayRecord(w: Primitives, rows: seq<Row>, b: Binding, state: State, instant: int)
    requires ValidBinding(w, b)
  {
    var life := RowsOfKey(rows, ReplayKey(w, b));
    && NextState(life, state) && Continues(w, life, w.hash(Encode(BindingJson(b))), instant)
    && (state == RESERVED ==> w.Instant(b.notBefore) <= instant)
    && (state in {RESERVED, RUNNING, COMPLETED} ==> instant < w.Instant(b.notAfter))
    && (state == EXPIRED ==> instant >= w.Instant(b.notAfter))
  }

  /** The rules are met, and exactly a terminal state comes with the digest of a receipt. */
  predicate Lawful(w: Primitives, rows: seq<Row>, b: Binding, state: State, now: string, receipt: Option<string>)
    requires ValidBinding(w, b) && w.IsTime(now)
  {
    && MayRecord(w, rows, b, state, w.Instant(now))
    && (receipt.Some? <==> state !in {RESERVED, RUNNING}) && (receipt.Some? ==> IsDigest(receipt.value))
  }

  /** The row of a granted request. */
  function Granted(w: Primitives, rows: seq<Row>, b: Binding, state: State, now: string, receipt: Option<string>): Row {
    Row(|rows| + 1, LastDigest(w, rows), ReplayKey(w, b), w.hash(Encode(BindingJson(b))), state, now, receipt)
  }

  // ---------------------------------------------------------------- rows

  lemma {:induction false} NextStateExactly(w: Primitives, life: seq<Row>, state: State)
    requires LegalLife(w, life)
    ensures NextState(life, state) <==> if life == [] then state == RESERVED else Edge(life[|life| - 1].state, state)
  {
    LegalLifeIsShort(w, life);
    if |life| == 2 || |life| == 3 {
      assert Edge(life[0].state, life[1].state);
    }
    if |life| == 3 {
      assert Edge(life[1].state, life[2].state);
    }
  }

  lemma {:induction false} PreviousIsLast(w: Primitives, rows: seq<Row>)
    requires Replay(w, rows).Some?
    ensures Replay(w, rows).value.previous == LastDigest(w, rows)
  {
    if rows != [] {
      LastRowOfReplay(w, rows);
    }
  }

  /** Behind accepted rows a row is accepted if and only if it may follow them. */
  lemma {:induction false} AcceptedExactly(w: Primitives, rows: seq<Row>, r: Row)
    requires Replay(w, rows).Some?
    ensures Replay(w, rows + [r]).Some? <==> MayFollow(w, rows, r)
  {
    assert (rows + [r])[..|rows|] == rows;
    PreviousIsLast(w, rows);
    LifeOfKey(w, rows, r.replayKey);
    NextStateExactly(w, RowsOfKey(rows, r.replayKey), r.state);
  }

  // ---------------------------------------------------------------- files

  lemma {:induction false} AcceptedHasRows(w: Primitives, raw: string)
    requires Accepted(w, raw).Some?
    ensures Rows(raw).Some? && Accepted(w, raw) == Replay(w, Rows(raw).value)
    ensures |Rows(raw).value| == |Split(raw)| == Accepted(w, raw).value.count
  {
    AcceptedRows(w, raw);
    RowsPerLine(Split(raw));
  }

  lemma {:induction false} LineTooLong(r: Row)
    requires |RowText(r)| + 1 > 2048
    ensures RowOfLine(RowText(r) + "\n").None?
  {
  }

  lemma {:induction false} LastLineRefused(lines: seq<string>, line: string)
    requires RowOfLine(line).None?
    ensures RowsOfLines(lines + [line]).None?
  {
    assert (lines + [line])[|lines|] == line;
  }

  lemma {:induction false} NoRoom(w: Primitives, raw: string, r: Row)
    requires Accepted(w, raw).Some? && Rows(raw).Some? && !HasRoom(raw, Rows(raw).value, r)
    ensures Rows(raw + (RowText(r) + "\n")).None?
  {
    AcceptedHasRows(w, raw);
    RowRead(r);
    var line := RowText(r) + "\n";
    SplitAppend(raw, RowText(r), "\n");
    assert |raw + line| == |raw| + |RowText(r)| + 1 && |Split(raw + line)| == |Rows(raw).value| + 1;
    if |RowText(r)| + 1 > 2048 {
      LineTooLong(r);
      LastLineRefused(Split(raw), line);
    }
  }

  /** An accepted file with one more printed row is accepted if and only if there is room and the row may follow. */
  lemma {:induction false} FileAcceptedExactly(w: Primitives, raw: string, r: Row)
    requires Accepted(w, raw).Some?
    ensures Rows(raw).Some?
    ensures Accepted(w, raw + (RowText(r) + "\n")).Some? <==>
            HasRoom(raw, Rows(raw).value, r) && MayFollow(w, Rows(raw).value, r)
  {
    AcceptedHasRows(w, raw);
    AcceptedRows(w, raw + (RowText(r) + "\n"));
    if HasRoom(raw, Rows(raw).value, r) {
      RowsAppend(raw, r);
      AcceptedExactly(w, Rows(raw).value, r);
    } else {
      NoRoom(w, raw, r);
    }
  }

  // ---------------------------------------------------------------- requests

  lemma {:induction false} RulesExactly(w: Primitives, rows: seq<Row>, b: Binding, state: State, instant: int)
    requires Replay(w, rows).Some? && ValidBinding(w, b)
    ensures RecordRules(w, Lookup(Replay(w, rows).value.latest, ReplayKey(w, b)), b, state, instant).Ok?
            <==> MayRecord(w, rows, b, state, instant)
  {
    LifeOfKey(w, rows, ReplayKey(w, b));
    NextStateExactly(w, RowsOfKey(rows, ReplayKey(w, b)), state);
  }

  lemma {:induction false} DecisionExactly(w: Primitives, raw: string, b: Binding, state: State, now: string, receipt: Option<string>)
    requires Accepted(w, raw).Some? && ValidBinding(w, b) && w.IsTime(now)
    ensures var s, decision := Accepted(w, raw).value, Decide(w, raw, b, state, now, receipt);
            var row := NewRow(w, s, b, state, now, receipt);
            var lawful := RecordRules(w, Lookup(s.latest, ReplayKey(w, b)), b, state, w.Instant(now)).Ok? && ReceiptFits(state, receipt);
            var room := s.count < MAX_RECORDS && |RowText(row)| + 1 <= MAX_RECORD && |raw| + (|RowText(row)| + 1) <= MAX_JOURNAL;
            && (decision.Ok? <==> lawful && room) && (decision.Ok? ==> decision.value == row)
            && (decision == Refused("REPLAY_JOURNAL_FULL") <==> lawful && !room)
  {
  }

  /**
    A request is granted, with its row, if and only if it is lawful and the file has room; without room alone
    the refusal says so.
   */
  lemma {:induction false} RecordExactly(w: Primitives, raw: string, b: Binding, state: State, now: string, receipt: Option<string>)
    requires Accepted(w, raw).Some? && ValidBinding(w, b) && w.IsTime(now)
    ensures Rows(raw).Some?
    ensures var rows, decision := Rows(raw).value, Decide(w, raw, b, state, now, receipt);
            var row := Granted(w, rows, b, state, now, receipt);
            && (decision.Ok? <==> Lawful(w, rows, b, state, now, receipt) && HasRoom(raw, rows, row))
            && (decision.Ok? ==> decision.value == row)
            && (decision == Refused("REPLAY_JOURNAL_FULL") <==> Lawful(w, rows, b, state, now, receipt) && !HasRoom(raw, rows, row))
  {
    AcceptedHasRows(w, raw);
    PreviousIsLast(w, Rows(raw).value);
    RulesExactly(w, Rows(raw).value, b, state, w.Instant(now));
    DecisionExactly(w, raw, b, state, now, receipt);
    assert Granted(w, Rows(raw).value, b, state, now, receipt) == NewRow(w, Accepted(w, raw).value, b, state, now, receipt);
  }
}
