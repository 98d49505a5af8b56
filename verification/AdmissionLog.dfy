/** The file of the admission ledger: how it is read, and the object that alone appends to it. */
module AdmissionLog {
  import opened Prelude
  import opened CanonicalJson
  import opened Digests
  import opened Cases
  import opened DurableFile
  import opened Lines
  import opened AdmissionLedger
  import opened AdmissionCodec
  import opened Profiles

  const MAX_LEDGER := 4194304
  const MAX_ROW := 32768
  const MAX_ROWS := 4096

  // ---------------------------------------------------------------- the file

  function RowText(r: Row): string {
    Encode(RowJson(r))
  }

  /** `document(line, 32768)` on one line of splitlines(). */
  function RowOfLine(line: string): Option<Row> {
    var text := Chomp(line);
    if !(0 < |text| <= MAX_ROW) then None
    else
      match Document(text)
      case None => None
      case Some(v) => RowOf(v)
  }

  function RowsOfLines(lines: seq<string>): Option<seq<Row>> {
    if lines == [] then Some([])
    else
      match (RowsOfLines(lines[..|lines| - 1]), RowOfLine(lines[|lines| - 1]))
      case (Some(rows), Some(row)) => Some(rows + [row])
      case _ => None
  }

  predicate FileShape(raw: string) {
    |raw| <= MAX_LEDGER && EndsLine(raw) && |Split(raw)| <= MAX_ROWS
  }

  function Rows(raw: string): Option<seq<Row>> {
    if FileShape(raw) then RowsOfLines(Split(raw)) else None
  }

  function LedgerText(rows: seq<Row>): string {
    if rows == [] then "" else LedgerText(rows[..|rows| - 1]) + (RowText(rows[|rows| - 1]) + "\n")
  }

  function StepLine(w: Primitives, s: Ledger, line: string): Option<Ledger> {
    match RowOfLine(line)
    case None => None
    case Some(row) => Step(w, s, row)
  }

  function ReplayLines(w: Primitives, lines: seq<string>): Option<Ledger> {
    if lines == [] then Some(EMPTY)
    else
      match ReplayLines(w, lines[..|lines| - 1])
      case None => None
      case Some(s) => StepLine(w, s, lines[|lines| - 1])
  }

  /** The ledger of a file parse_reservations accepts. */
  function Accepted(w: Primitives, raw: string): Option<Ledger> {
    if FileShape(raw) then ReplayLines(w, Split(raw)) else None
  }

  lemma {:induction false} ReplayLinesIsReplay(w: Primitives, lines: seq<string>)
    ensures ReplayLines(w, lines) == match RowsOfLines(lines) case None => None case Some(rows) => Replay(w, rows)
  {
    if lines != [] {
      var before := lines[..|lines| - 1];
      ReplayLinesIsReplay(w, before);
      if RowsOfLines(lines).Some? {
        var rows := RowsOfLines(lines).value;
        assert rows[..|rows| - 1] == RowsOfLines(before).value;
      }
    }
  }

  /** A file is accepted exactly when it holds rows that replay. */
  lemma {:induction false} AcceptedRows(w: Primitives, raw: string)
    ensures Accepted(w, raw) == match Rows(raw) case None => None case Some(rows) => Replay(w, rows)
  {
    if FileShape(raw) {
      ReplayLinesIsReplay(w, Split(raw));
    }
  }

  lemma {:induction false} RefusedPrefix(w: Primitives, lines: seq<string>, k: nat)
    requires k <= |lines| && ReplayLines(w, lines[..k]).None?
    ensures ReplayLines(w, lines).None?
  {
    if k == |lines| {
      assert lines[..k] == lines;
    } else {
      var before := lines[..|lines| - 1];
      assert before[..k] == lines[..k];
      RefusedPrefix(w, before, k);
    }
  }

  lemma {:induction false} NextLine(w: Primitives, lines: seq<string>, i: nat, s: Ledger)
    requires i < |lines| && ReplayLines(w, lines[..i]) == Some(s)
    ensures ReplayLines(w, lines[..i + 1]) == StepLine(w, s, lines[i])
  {
    assert lines[..i + 1][..i] == lines[..i];
  }

  /** parse_reservations: three running variables, updated line by line. */
  method ParseReservations(w: Primitives, raw: string) returns (r: Option<Ledger>)
    ensures r == Accepted(w, raw)
  {
    if |raw| > MAX_LEDGER || !EndsLine(raw) {
      return None;
    }
    var lines := Split(raw);
    if |lines| > MAX_ROWS {
      return None;
    }
    var previous, reservations, recorded := ZERO, map[], {};
    var index := 0;
    while index < |lines|
      invariant 0 <= index <= |lines|
      invariant ReplayLines(w, lines[..index]) == Some(Ledger(reservations, recorded, previous, index))
    {
      NextLine(w, lines, index, Ledger(reservations, recorded, previous, index));
      var next := StepLine(w, Ledger(reservations, recorded, previous, index), lines[index]);
      if next.None? {
        RefusedPrefix(w, lines, index + 1);
        return None;
      }
      reservations, recorded, previous := next.value.reservations, next.value.recorded, next.value.previous;
      index := index + 1;
    }
    assert lines[..index] == lines;
    r := Some(Ledger(reservations, recorded, previous, index));
  }

  // ---------------------------------------------------------------- one more line

  lemma {:induction false} RowReads(r: Row)
    ensures Document(RowText(r)) == Some(RowJson(r)) && RowOf(RowJson(r)) == Some(r)
    ensures Printable(RowText(r)) && RowText(r) != ""
  {
    RowNormal(r);
    RowRead(r);
    DocumentOfEncoded(RowJson(r));
    EncodePrintable(RowJson(r));
    FirstOfEncoded(RowJson(r));
  }

  lemma {:induction false} LineOfRow(r: Row, end: string)
    requires |RowText(r)| <= MAX_ROW && (end == "\n" || end == "\r\n")
    ensures RowOfLine(RowText(r) + end) == Some(r)
  {
    RowReads(r);
    ChompAppended(RowText(r), end);
  }

  lemma {:induction false} TooLongLine(r: Row, end: string)
    requires |RowText(r)| > MAX_ROW && (end == "\n" || end == "\r\n")
    ensures RowOfLine(RowText(r) + end).None?
  {
    RowReads(r);
    ChompAppended(RowText(r), end);
  }

  lemma {:induction false} OneMoreLine(w: Primitives, raw: string, r: Row, end: string)
    requires EndsLine(raw) && (end == "\n" || end == "\r\n")
    ensures Split(raw + (RowText(r) + end)) == Split(raw) + [RowText(r) + end]
    ensures ReplayLines(w, Split(raw + (RowText(r) + end))) ==
            match ReplayLines(w, Split(raw)) case None => None case Some(s) => StepLine(w, s, RowText(r) + end)
  {
    RowReads(r);
    SplitAppend(raw, RowText(r), end);
    var lines := Split(raw) + [RowText(r) + end];
    assert lines[..|lines| - 1] == Split(raw);
  }

  lemma {:induction false} CountsLines(w: Primitives, lines: seq<string>)
    requires ReplayLines(w, lines).Some?
    ensures ReplayLines(w, lines).value.count == |lines|
  {
    if lines != [] {
      CountsLines(w, lines[..|lines| - 1]);
    }
  }

  /** The rows one append must fit: the size bounds of the file and of a row, and the number of rows. */
  predicate Fits(w: Primitives, raw: string, s: Ledger, r: Row) {
    |RowText(r)| <= MAX_ROW && |raw| + |RowText(r)| + 1 <= MAX_LEDGER && s.count < MAX_ROWS
  }

  /**
    Append closure: after one more printed row the file is accepted exactly when the row steps the
    ledger within the bounds, and then the file's ledger is that step and nothing else.
   */
  lemma {:induction false} AppendAccepted(w: Primitives, raw: string, r: Row)
    requires Accepted(w, raw).Some?
    ensures Accepted(w, raw + (RowText(r) + "\n")) ==
            if Fits(w, raw, Accepted(w, raw).value, r) then Step(w, Accepted(w, raw).value, r) else None
  {
    var s, after := Accepted(w, raw).value, raw + (RowText(r) + "\n");
    OneMoreLine(w, raw, r, "\n");
    CountsLines(w, Split(raw));
    if |RowText(r)| <= MAX_ROW {
      LineOfRow(r, "\n");
    } else {
      TooLongLine(r, "\n");
    }
  }

  lemma {:induction false} Unterminated(w: Primitives, raw: string, torn: string)
    requires Printable(torn) && torn != ""
    ensures Accepted(w, raw + torn).None?
  {
  }

  /** After a crash inside the append the file is the old ledger, the whole new file, or refused. */
  lemma {:induction false} CrashSafe(w: Primitives, raw: string, r: Row, written: nat)
    requires written <= |RowText(r)| + 1
    ensures var after := raw + (RowText(r) + "\n")[..written];
            && (written == 0 ==> after == raw)
            && (written == |RowText(r)| + 1 ==> after == raw + (RowText(r) + "\n"))
            && (0 < written <= |RowText(r)| ==> Accepted(w, after).None?)
  {
    var line := RowText(r) + "\n";
    if 0 < written <= |RowText(r)| {
      RowReads(r);
      Unterminated(w, raw, line[..written]);
    } else if written == |line| {
      assert line[..written] == line;
    }
  }

  // ---------------------------------------------------------------- are the bytes determined by the rows?

  /** No: a record ended by a carriage return and a line feed reads exactly as the one ended by a line feed. */
  lemma {:induction false} CarriageReturnReadsTheSame(w: Primitives, raw: string, r: Row)
    requires Accepted(w, raw).Some? && |raw| + |RowText(r)| + 2 <= MAX_LEDGER
    ensures Accepted(w, raw + (RowText(r) + "\r\n")) == Accepted(w, raw + (RowText(r) + "\n"))
    ensures raw + (RowText(r) + "\r\n") != raw + (RowText(r) + "\n")
  {
    OneMoreLine(w, raw, r, "\n");
    OneMoreLine(w, raw, r, "\r\n");
    SameLine(r);
    SameShape(raw, raw + (RowText(r) + "\n"), raw + (RowText(r) + "\r\n"), RowText(r));
  }

  lemma {:induction false} SameLine(r: Row)
    ensures RowOfLine(RowText(r) + "\r\n") == RowOfLine(RowText(r) + "\n")
  {
    if |RowText(r)| <= MAX_ROW {
      LineOfRow(r, "\n");
      LineOfRow(r, "\r\n");
    } else {
      TooLongLine(r, "\n");
      TooLongLine(r, "\r\n");
    }
  }

  lemma {:induction false} SameShape(raw: string, a: string, b: string, text: string)
    requires a == raw + (text + "\n") && b == raw + (text + "\r\n") && |b| <= MAX_LEDGER
    requires |Split(a)| == |Split(b)|
    ensures FileShape(a) == FileShape(b) && a != b
  {
  }

  predicate NoReturn(raw: string) {
    forall i :: 0 <= i < |raw| ==> raw[i] != '\r'
  }

  lemma {:induction false} NoReturnLines(raw: string, k: nat)
    requires NoReturn(raw) && k < |Split(raw)|
    ensures NoReturn(Split(raw)[k])
    decreases |raw|
  {
    if k > 0 {
      NoReturnLines(raw[FirstLine(raw)..], k - 1);
    }
  }

  lemma {:induction false} LineText(raw: string, k: nat)
    requires EndsLine(raw) && NoReturn(raw) && k < |Split(raw)| && RowOfLine(Split(raw)[k]).Some?
    ensures Split(raw)[k] == RowText(RowOfLine(Split(raw)[k]).value) + "\n"
  {
    var line := Split(raw)[k];
    LinesEnd(raw, k);
    NoReturnLines(raw, k);
    assert line[|line| - 1] == '\n';
    assert Chomp(line) == line[..|line| - 1];
    FrontAndEnd(line, '\n');
  }

  predicate PrintedLines(lines: seq<string>) {
    forall k :: 0 <= k < |lines| && RowOfLine(lines[k]).Some? ==> lines[k] == RowText(RowOfLine(lines[k]).value) + "\n"
  }

  lemma {:induction false} LinesText(lines: seq<string>)
    requires RowsOfLines(lines).Some? && PrintedLines(lines)
    ensures Concat(lines) == LedgerText(RowsOfLines(lines).value)
  {
    if lines != [] {
      var before := lines[..|lines| - 1];
      LinesText(before);
      var rows := RowsOfLines(lines).value;
      assert rows[..|rows| - 1] == RowsOfLines(before).value;
    }
  }

  lemma {:induction false} LedgerTextPlain(rows: seq<Row>)
    ensures NoReturn(LedgerText(rows))
  {
    if rows != [] {
      LedgerTextPlain(rows[..|rows| - 1]);
      RowReads(rows[|rows| - 1]);
    }
  }

  /** An accepted file is the printed form of its rows exactly when it holds no carriage return. */
  lemma {:induction false} BytesDeterminedExactly(raw: string)
    requires Rows(raw).Some?
    ensures raw == LedgerText(Rows(raw).value) <==> NoReturn(raw)
  {
    if NoReturn(raw) {
      var lines := Split(raw);
      forall k | 0 <= k < |lines| && RowOfLine(lines[k]).Some?
        ensures lines[k] == RowText(RowOfLine(lines[k]).value) + "\n"
      {
        LineText(raw, k);
      }
      LinesText(lines);
      ConcatOfSplit(raw);
    } else {
      LedgerTextPlain(Rows(raw).value);
    }
  }

  /**
    The input that shows it: whenever a row steps the ledger and two more bytes fit, the file that ends it
    with a carriage return and a line feed is accepted as exactly that step, and is not what its rows print.
   */
  lemma {:induction false} CarriageReturnAccepted(w: Primitives, raw: string, r: Row)
    requires Accepted(w, raw).Some? && Step(w, Accepted(w, raw).value, r).Some?
    requires Fits(w, raw, Accepted(w, raw).value, r) && |raw| + |RowText(r)| + 2 <= MAX_LEDGER
    ensures var file := raw + (RowText(r) + "\r\n");
            && Accepted(w, file) == Step(w, Accepted(w, raw).value, r)
            && Rows(file).Some? && file != LedgerText(Rows(file).value)
  {
    var file := raw + (RowText(r) + "\r\n");
    CarriageReturnReadsTheSame(w, raw, r);
    AppendAccepted(w, raw, r);
    AcceptedRows(w, file);
    BytesDeterminedExactly(file);
    assert file[|file| - 2] == '\r';
  }

  // ---------------------------------------------------------------- the object

  function NewRow(s: Ledger, b: Binding, state: RowState, operation: Option<Case>, now: string,
                  cleanup: Option<Receipt>, resource: Option<Resource>): Row
  {
    Row(s.count + 1, s.previous, b, state, operation, now, cleanup, resource)
  }

  /** The row a transaction may append to a file holding `raw`: both the file and its extension must be accepted. */
  function Decide(w: Primitives, raw: string, b: Binding, state: RowState, operation: Option<Case>, now: string,
                  cleanup: Option<Receipt>, resource: Option<Resource>): (r: Option<Row>)
    ensures r.Some? ==> Accepted(w, raw).Some? && Accepted(w, raw + (RowText(r.value) + "\n")).Some?
  {
    match Accepted(w, raw)
    case None => None
    case Some(s) =>
      var row := NewRow(s, b, state, operation, now, cleanup, resource);
      if Accepted(w, raw + (RowText(row) + "\n")).None? then None else Some(row)
  }

  /** What the file and the poison bit are after an append that met `fault`. */
  predicate Appended(before: string, after: string, line: string, poisoned: bool, fault: Fault) {
    && (poisoned <==> !fault.NoFault?)
    && after == Left(before, line, fault)
    && (!fault.Torn? ==> after == before + line)
  }

  class Log {
    const w: Primitives
    const storage: Storage
    var poisoned: bool

    constructor (w: Primitives, storage: Storage)
      ensures this.w == w && this.storage == storage && !poisoned
    {
      this.w, this.storage, poisoned := w, storage, false;
    }

    /** Append, sync and read back; any doubt poisons the object. */
    method Write(row: Row, fault: Fault) returns (ok: bool)
      requires !poisoned && !fault.Unavailable?
      modifies this, storage
      ensures ok <==> fault.NoFault?
      ensures Appended(old(storage.content), storage.content, RowText(row) + "\n", poisoned, fault)
    {
      var before, line := storage.content, RowText(row) + "\n";
      var written := storage.Append(line, fault);
      ok := written && !fault.Unconfirmed? && storage.content == before + line;
      poisoned := !ok;
    }

    /** `record`: rows of the reservation itself. */
    method Record(b: Binding, state: RowState, operation: Option<Case>, now: string, cleanup: Option<Receipt>, fault: Fault)
      returns (r: Option<string>)
      modifies this, storage
      ensures old(poisoned) || fault.Unavailable? || Decide(w, old(storage.content), b, state, operation, now, cleanup, None).None? ==>
                r.None? && poisoned == old(poisoned) && storage.content == old(storage.content)
      ensures !old(poisoned) && !fault.Unavailable? ==>
                match Decide(w, old(storage.content), b, state, operation, now, cleanup, None)
                case None => true
                case Some(row) =>
                  && r == (if fault.NoFault? then Some(RowDigest(w, row)) else None)
                  && Appended(old(storage.content), storage.content, RowText(row) + "\n", poisoned, fault)
    {
      if poisoned || fault.Unavailable? {
        return None;
      }
      var before := storage.content;
      var s := ParseReservations(w, before);
      if s.None? {
        return None;
      }
      var row := NewRow(s.value, b, state, operation, now, cleanup, None);
      var after := ParseReservations(w, before + (RowText(row) + "\n"));
      if after.None? {
        return None;
      }
      var ok := Write(row, fault);
      r := if ok then Some(RowDigest(w, row)) else None;
    }

    /**
      `record_resource`: an intent before the API call, or its confirmation after it.  The caller's
      retained history must still be the file; the resource is derived, never passed in.
     */
    method RecordResource(b: Binding, state: RowState, operation: Case, now: string, profile: Json, broker: BrokerBinding,
                          action: Action, expected: string, observed: Option<Json>, fault: Fault)
      returns (r: Option<string>)
      modifies this, storage
      ensures var resource := CreateRecord(w, b, operation, profile, broker, action, observed);
              var allowed := !old(poisoned) && (state == CREATE_INTENT || state == CREATED) && (observed.None? <==> state == CREATE_INTENT)
                             && resource.Some? && !fault.Unavailable? && old(storage.content) == expected;
              var row := Decide(w, expected, b, state, Some(operation), now, None, resource);
              if allowed && row.Some? then
                && r == (if fault.NoFault? then Some(RowDigest(w, row.value)) else None)
                && Appended(expected, storage.content, RowText(row.value) + "\n", poisoned, fault)
              else r.None? && poisoned == old(poisoned) && storage.content == old(storage.content)
    {
      if poisoned || !(state == CREATE_INTENT || state == CREATED) || (observed.None? != (state == CREATE_INTENT)) {
        return None;
      }
      var resource := CreateRecord(w, b, operation, profile, broker, action, observed);
      if resource.None? || fault.Unavailable? || storage.content != expected {
        return None;
      }
      var s := ParseReservations(w, expected);
      if s.None? {
        return None;
      }
      var row := NewRow(s.value, b, state, Some(operation), now, None, resource);
      var after := ParseReservations(w, expected + (RowText(row) + "\n"));
      if after.None? {
        return None;
      }
      var ok := Write(row, fault);
      r := if ok then Some(RowDigest(w, row)) else None;
    }
  }
}
