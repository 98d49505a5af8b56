/**
  The single-use nonce journal (live_replay_store.py): an append-only, hash-chained file in which
  no expiry, crash or terminal state frees a (tenant, nonce) key.
 */
module ReplayJournal {
  import opened Prelude
  import opened CanonicalJson
  import opened Digests
  import opened DurableFile
  import opened Lines

  const MAX_JOURNAL := 4194304
  const MAX_RECORD := 2048
  const MAX_RECORDS := 4096
  const KEY_DOMAIN := "planeon.live-replay-key/v1alpha1\0"

  datatype State = RESERVED | RUNNING | COMPLETED | FAILED | CANCELLED | EXPIRED

  predicate Terminal(s: State) {
    s in {COMPLETED, FAILED, CANCELLED, EXPIRED}
  }

  /** EDGES. */
  predicate Edge(from: State, to: State) {
    match from
    case RESERVED => to in {RUNNING, FAILED, CANCELLED, EXPIRED}
    case RUNNING => Terminal(to)
    case _ => false
  }

  function StateName(s: State): string {
    match s
    case RESERVED => "RESERVED"
    case RUNNING => "RUNNING"
    case COMPLETED => "COMPLETED"
    case FAILED => "FAILED"
    case CANCELLED => "CANCELLED"
    case EXPIRED => "EXPIRED"
  }

  function StateNamed(t: string): Option<State> {
    if t == "RESERVED" then Some(RESERVED)
    else if t == "RUNNING" then Some(RUNNING)
    else if t == "COMPLETED" then Some(COMPLETED)
    else if t == "FAILED" then Some(FAILED)
    else if t == "CANCELLED" then Some(CANCELLED)
    else if t == "EXPIRED" then Some(EXPIRED)
    else None
  }

  // ---------------------------------------------------------------- rows

  datatype Row = Row(
    sequence: int, previousDigest: string, replayKey: string, bindingDigest: string,
    state: State, observedAt: string, receiptDigest: Option<string>)

  function RowJson(r: Row): Json {
    Obj([
      Member("bindingDigest", Str(r.bindingDigest)),
      Member("observedAt", Str(r.observedAt)),
      Member("previousDigest", Str(r.previousDigest)),
      Member("receiptDigest", match r.receiptDigest case None => Null case Some(d) => Str(d)),
      Member("replayKey", Str(r.replayKey)),
      Member("sequence", Int(r.sequence)),
      Member("state", Str(StateName(r.state)))])
  }

  /** The row a document holds: exactly the seven fields, with the right types. */
  function RowOf(v: Json): (r: Option<Row>)
    ensures r.Some? ==> RowJson(r.value) == v
  {
    if !v.Obj? || |v.members| != 7 then None
    else
      var m := (i: int) requires 0 <= i < 7 => v.members[i].value;
      if !m(0).Str? || !m(1).Str? || !m(2).Str? || !(m(3).Null? || m(3).Str?) || !m(4).Str? || !m(5).Int? || !m(6).Str? then None
      else
        match StateNamed(m(6).s)
        case None => None
        case Some(state) =>
          var row := Row(m(5).n, m(2).s, m(4).s, m(0).s, state, m(1).s, if m(3).Null? then None else Some(m(3).s));
          if RowJson(row) == v then Some(row) else None
  }

  function RowText(r: Row): string {
    Encode(RowJson(r))
  }

  function RowDigest(w: Primitives, r: Row): string {
    w.Digest(RowJson(r))
  }

  lemma {:induction false} RowKeys(r: Row)
    requires Below("receiptDigest", "replayKey") && Below("sequence", "state")
    ensures Increasing(RowJson(r).members)
  {
    var m := RowJson(r).members;
    assert m[0].key == "bindingDigest" && m[1].key == "observedAt" && m[2].key == "previousDigest";
    assert m[3].key == "receiptDigest" && m[4].key == "replayKey" && m[5].key == "sequence" && m[6].key == "state";
  }

  lemma {:induction false} RowNormal(r: Row)
    ensures Normal(RowJson(r))
  {
    BelowAt("receiptDigest", "replayKey", 2);
    BelowAt("sequence", "state", 1);
    RowKeys(r);
  }

  lemma {:induction false} RowOfJson(r: Row)
    ensures RowOf(RowJson(r)) == Some(r)
  {
    assert StateNamed(StateName(r.state)) == Some(r.state);
  }

  lemma {:induction false} RowRead(r: Row)
    ensures RowOf(RowJson(r)) == Some(r)
    ensures Document(RowText(r)) == Some(RowJson(r))
    ensures Printable(RowText(r))
  {
    RowNormal(r);
    RowOfJson(r);
    DocumentOfEncoded(RowJson(r));
    EncodePrintable(RowJson(r));
  }

  lemma {:induction false} RowTextInjective(a: Row, b: Row)
    requires RowText(a) == RowText(b)
    ensures a == b
  {
    EncodeInjective(RowJson(a), RowJson(b));
    RowRead(a);
    RowRead(b);
  }

  // ---------------------------------------------------------------- lines of the file

  /** A line, kept with its terminator, is one canonical document and at most one final line feed. */
  function RowOfLine(line: string): Option<Row> {
    if !(0 < |line| <= MAX_RECORD) then None
    else
      match Document(if line[|line| - 1] == '\n' then line[..|line| - 1] else line)
      case None => None
      case Some(v) => RowOf(v)
  }

  function RowsOfLines(lines: seq<string>): Option<seq<Row>> {
    if lines == [] then Some([])
    else
      match (RowsOfLines(lines[..|lines| - 1]), RowOfLine(lines[|lines| - 1]))
      case (Some(rows), Some(row)) => Some(rows + [row])
      case _ => None
  }

  /** The rows of a journal file that meets the size limits. */
  function Rows(raw: string): Option<seq<Row>> {
    if |raw| > MAX_JOURNAL || !EndsLine(raw) || |Split(raw)| > MAX_RECORDS then None
    else RowsOfLines(Split(raw))
  }

  function JournalText(rows: seq<Row>): string {
    if rows == [] then "" else JournalText(rows[..|rows| - 1]) + (RowText(rows[|rows| - 1]) + "\n")
  }

  lemma {:induction false} LineOfRow(r: Row)
    requires |RowText(r)| < MAX_RECORD
    ensures RowOfLine(RowText(r) + "\n") == Some(r)
  {
    RowRead(r);
    assert (RowText(r) + "\n")[..|RowText(r)|] == RowText(r);
  }

  /** Among the lines of a terminated file only printed rows followed by a line feed are accepted. */
  lemma {:induction false} LineText(raw: string, k: nat)
    requires k < |Split(raw)| && EndsLine(raw) && RowOfLine(Split(raw)[k]).Some?
    ensures Split(raw)[k] == RowText(RowOfLine(Split(raw)[k]).value) + "\n"
  {
    var line := Split(raw)[k];
    LinesEnd(raw, k);
    var row := RowOfLine(line).value;
    RowRead(row);
    assert line[|line| - 1] == '\n';
    FrontAndEnd(line, '\n');
  }

  /** An accepted file is, byte for byte, the printed form of its rows. */
  lemma {:induction false} RowsDetermineBytes(raw: string)
    requires Rows(raw).Some?
    ensures raw == JournalText(Rows(raw).value)
  {
    var lines := Split(raw);
    forall k | 0 <= k < |lines|
      ensures RowOfLine(lines[k]).Some? ==> lines[k] == RowText(RowOfLine(lines[k]).value) + "\n"
    {
      if RowOfLine(lines[k]).Some? {
        LineText(raw, k);
      }
    }
    LinesText(lines);
    ConcatOfSplit(raw);
  }

  lemma {:induction false} LinesText(lines: seq<string>)
    requires RowsOfLines(lines).Some?
    requires forall k :: 0 <= k < |lines| && RowOfLine(lines[k]).Some? ==>
                           lines[k] == RowText(RowOfLine(lines[k]).value) + "\n"
    ensures Concat(lines) == JournalText(RowsOfLines(lines).value)
  {
    if lines != [] {
      var before := lines[..|lines| - 1];
      LinesText(before);
      var rows := RowsOfLines(lines).value;
      assert rows[..|rows| - 1] == RowsOfLines(before).value;
    }
  }

  lemma {:induction false} RowsAppend(raw: string, r: Row)
    requires Rows(raw).Some? && |Rows(raw).value| < MAX_RECORDS
    requires |RowText(r)| < MAX_RECORD && |raw| + |RowText(r)| + 1 <= MAX_JOURNAL
    ensures Rows(raw + (RowText(r) + "\n")) == Some(Rows(raw).value + [r])
  {
    RowRead(r);
    LineOfRow(r);
    SplitAppend(raw, RowText(r), "\n");
    RowsPerLine(Split(raw));
    var lines := Split(raw) + [RowText(r) + "\n"];
    assert lines[..|lines| - 1] == Split(raw);
  }

  lemma {:induction false} RowsPerLine(lines: seq<string>)
    requires RowsOfLines(lines).Some?
    ensures |RowsOfLines(lines).value| == |lines|
  {
    if lines != [] {
      RowsPerLine(lines[..|lines| - 1]);
    }
  }

  // ---------------------------------------------------------------- replay

  /** What parse_journal returns: the last row of every key, the last digest, the number of rows. */
  datatype Replayed = Replayed(latest: map<string, Row>, previous: string, count: nat)

  const EMPTY := Replayed(map[], ZERO, 0)

  predicate RowShape(w: Primitives, r: Row) {
    && IsDigest(r.replayKey) && IsDigest(r.bindingDigest) && w.IsTime(r.observedAt)
    && (if Terminal(r.state) then r.receiptDigest.Some? && IsDigest(r.receiptDigest.value) else r.receiptDigest.None?)
  }

  predicate Follows(w: Primitives, prior: Option<Row>, r: Row)
    requires w.IsTime(r.observedAt) && (prior.Some? ==> w.IsTime(prior.value.observedAt))
  {
    match prior
    case None => r.state == RESERVED
    case Some(p) =>
      && Edge(p.state, r.state)
      && r.bindingDigest == p.bindingDigest
      && w.Instant(r.observedAt) >= w.Instant(p.observedAt)
  }

  function Lookup(latest: map<string, Row>, key: string): Option<Row> {
    if key in latest then Some(latest[key]) else None
  }

  predicate WellTimed(w: Primitives, latest: map<string, Row>) {
    forall key :: key in latest ==> w.IsTime(latest[key].observedAt)
  }

  function Step(w: Primitives, s: Replayed, r: Row): (next: Option<Replayed>)
    requires WellTimed(w, s.latest)
    ensures next.Some? ==> WellTimed(w, next.value.latest)
  {
    if r.sequence != s.count + 1 || r.previousDigest != s.previous || !RowShape(w, r) then None
    else if !Follows(w, Lookup(s.latest, r.replayKey), r) then None
    else Some(Replayed(s.latest[r.replayKey := r], RowDigest(w, r), s.count + 1))
  }

  function Replay(w: Primitives, rows: seq<Row>): (r: Option<Replayed>)
    ensures r.Some? ==> WellTimed(w, r.value.latest) && r.value.count == |rows|
  {
    if rows == [] then Some(EMPTY)
    else
      match Replay(w, rows[..|rows| - 1])
      case None => None
      case Some(s) => Step(w, s, rows[|rows| - 1])
  }

  function StepLine(w: Primitives, s: Replayed, line: string): (next: Option<Replayed>)
    requires WellTimed(w, s.latest)
    ensures next.Some? ==> WellTimed(w, next.value.latest) && next.value.count == s.count + 1
  {
    match RowOfLine(line)
    case None => None
    case Some(row) => Step(w, s, row)
  }

  /** parse_journal line by line. */
  function ReplayLines(w: Primitives, lines: seq<string>): (r: Option<Replayed>)
    ensures r.Some? ==> WellTimed(w, r.value.latest) && r.value.count == |lines|
  {
    if lines == [] then Some(EMPTY)
    else
      match ReplayLines(w, lines[..|lines| - 1])
      case None => None
      case Some(s) => StepLine(w, s, lines[|lines| - 1])
  }

  /** The state of a file parse_journal accepts. */
  function Accepted(w: Primitives, raw: string): Option<Replayed> {
    if |raw| > MAX_JOURNAL || !EndsLine(raw) || |Split(raw)| > MAX_RECORDS then None
    else ReplayLines(w, Split(raw))
  }

  lemma {:induction false} ReplayLinesIsReplay(w: Primitives, lines: seq<string>)
    ensures ReplayLines(w, lines) == match RowsOfLines(lines) case None => None case Some(rows) => Replay(w, rows)
  {
    if lines != [] {
      var before := lines[..|lines| - 1];
      ReplayLinesIsReplay(w, before);
      if RowsOfLines(lines).Some? {
        var rows := RowsOfLines(lines).value;
        assert rows[..|rows| - 1] == RowsOfLines(before).value;
      }
    }
  }

  /** A file is accepted exactly when it holds rows that replay. */
  lemma {:induction false} AcceptedRows(w: Primitives, raw: string)
    ensures Accepted(w, raw) == match Rows(raw) case None => None case Some(rows) => Replay(w, rows)
  {
    if |raw| <= MAX_JOURNAL && EndsLine(raw) && |Split(raw)| <= MAX_RECORDS {
      ReplayLinesIsReplay(w, Split(raw));
    }
  }

  lemma {:induction false} RefusedPrefix(w: Primitives, lines: seq<string>, k: nat)
    requires k <= |lines| && ReplayLines(w, lines[..k]).None?
    ensures ReplayLines(w, lines).None?
  {
    if k == |lines| {
      assert lines[..k] == lines;
    } else {
      var before := lines[..|lines| - 1];
      assert before[..k] == lines[..k];
      RefusedPrefix(w, before, k);
    }
  }

  method ParseJournal(w: Primitives, raw: string) returns (r: Option<Replayed>)
    ensures r == Accepted(w, raw)
  {
    if |raw| > MAX_JOURNAL || !EndsLine(raw) {
      return None;
    }
    var lines := Split(raw);
    if |lines| > MAX_RECORDS {
      return None;
    }
    var latest: map<string, Row>, previous, i := map[], ZERO, 0;
    while i < |lines|
      invariant 0 <= i <= |lines| && WellTimed(w, latest)
      invariant ReplayLines(w, lines[..i]) == Some(Replayed(latest, previous, i))
    {
      assert lines[..i + 1][..i] == lines[..i];
      var next := StepLine(w, Replayed(latest, previous, i), lines[i]);
      if next.None? {
        RefusedPrefix(w, lines, i + 1);
        return None;
      }
      latest, previous := next.value.latest, next.value.previous;
      i := i + 1;
    }
    assert lines[..i] == lines;
    r := Some(Replayed(latest, previous, i));
  }

  // ---------------------------------------------------------------- the life of one key

  function RowsOfKey(rows: seq<Row>, key: string): seq<Row> {
    if rows == [] then []
    else
      var before := RowsOfKey(rows[..|rows| - 1], key);
      if rows[|rows| - 1].replayKey == key then before + [rows[|rows| - 1]] else before
  }

  /** Reserved first, then along EDGES with one binding and non-decreasing times; nothing follows a terminal row. */
  predicate LegalLife(w: Primitives, life: seq<Row>) {
    && (forall i :: 0 <= i < |life| ==> w.IsTime(life[i].observedAt))
    && (life != [] ==> life[0].state == RESERVED)
    && (forall i :: 0 < i < |life| ==>
          && Edge(life[i - 1].state, life[i].state)
          && life[i].bindingDigest == life[i - 1].bindingDigest
          && w.Instant(life[i].observedAt) >= w.Instant(life[i - 1].observedAt))
  }

  lemma {:induction false} LifeGoesOn(w: Primitives, life: seq<Row>, s: Replayed, r: Row)
    requires LegalLife(w, life) && WellTimed(w, s.latest) && Step(w, s, r).Some?
    requires Lookup(s.latest, r.replayKey) == if life == [] then None else Some(life[|life| - 1])
    ensures LegalLife(w, life + [r])
  {
    var more := life + [r];
    assert forall i :: 0 <= i < |life| ==> more[i] == life[i];
    assert more[|life|] == r;
  }

  lemma {:induction false} LatestAfter(w: Primitives, s: Replayed, r: Row, key: string)
    requires WellTimed(w, s.latest) && Step(w, s, r).Some?
    ensures Lookup(Step(w, s, r).value.latest, key) == if key == r.replayKey then Some(r) else Lookup(s.latest, key)
  {
  }

  /** In an accepted journal every key lives legally, and `latest` is its last row. */
  lemma {:induction false} LifeOfKey(w: Primitives, rows: seq<Row>, key: string)
    requires Replay(w, rows).Some?
    ensures LegalLife(w, RowsOfKey(rows, key))
    ensures var life := RowsOfKey(rows, key);
            Lookup(Replay(w, rows).value.latest, key) == if life == [] then None else Some(life[|life| - 1])
  {
    if rows != [] {
      var before, r := rows[..|rows| - 1], rows[|rows| - 1];
      LifeOfKey(w, before, key);
      LatestAfter(w, Replay(w, before).value, r, key);
      if r.replayKey == key {
        LifeGoesOn(w, RowsOfKey(before, key), Replay(w, before).value, r);
      }
    }
  }

  function Rank(s: State): nat {
    if s == RESERVED then 0 else if s == RUNNING then 1 else 2
  }

  lemma {:induction false} RankGrows(w: Primitives, life: seq<Row>, i: nat, j: nat)
    requires LegalLife(w, life) && i < j < |life|
    ensures Rank(life[j].state) >= Rank(life[i].state) + (j - i)
    ensures w.Instant(life[i].observedAt) <= w.Instant(life[j].observedAt)
    ensures life[i].bindingDigest == life[j].bindingDigest
  {
    if j > i + 1 {
      RankGrows(w, life, i, j - 1);
    }
  }

  /** A legal life has at most three rows, one reservation, and at most one terminal row, which is last. */
  lemma {:induction false} LegalLifeIsShort(w: Primitives, life: seq<Row>)
    requires LegalLife(w, life)
    ensures |life| <= 3
    ensures forall i :: 0 <= i < |life| ==> (life[i].state == RESERVED <==> i == 0)
    ensures forall i :: 0 <= i < |life| && Terminal(life[i].state) ==> i == |life| - 1
    ensures forall i, j :: 0 <= i <= j < |life| ==> w.Instant(life[i].observedAt) <= w.Instant(life[j].observedAt)
    ensures forall i :: 0 <= i < |life| ==> life[i].bindingDigest == life[0].bindingDigest
  {
    forall i, j | 0 <= i < j < |life|
      ensures Rank(life[j].state) >= Rank(life[i].state) + (j - i)
      ensures w.Instant(life[i].observedAt) <= w.Instant(life[j].observedAt)
      ensures life[i].bindingDigest == life[j].bindingDigest
    {
      RankGrows(w, life, i, j);
    }
    forall i | 0 <= i < |life| - 1
      ensures !Terminal(life[i].state)
    {
      RankGrows(w, life, i, |life| - 1);
    }
    if |life| > 3 {
      RankGrows(w, life, 0, 3);
    }
  }

  // ---------------------------------------------------------------- the digest chain

  function Texts(rows: seq<Row>): set<string> {
    set i | 0 <= i < |rows| :: RowText(rows[i])
  }

  lemma {:induction false} LastRowOfReplay(w: Primitives, rows: seq<Row>)
    requires rows != [] && Replay(w, rows).Some?
    ensures Replay(w, rows).value.previous == RowDigest(w, rows[|rows| - 1])
    ensures rows[|rows| - 1].sequence == |rows|
    ensures Replay(w, rows[..|rows| - 1]).Some?
    ensures Replay(w, rows[..|rows| - 1]).value.previous == rows[|rows| - 1].previousDigest
    ensures RowText(rows[|rows| - 1]) in Texts(rows)
    ensures Texts(rows[..|rows| - 1]) <= Texts(rows)
  {
    forall t | t in Texts(rows[..|rows| - 1])
      ensures t in Texts(rows)
    {
      var i :| 0 <= i < |rows| - 1 && RowText(rows[..|rows| - 1][i]) == t;
      assert rows[..|rows| - 1][i] == rows[i];
    }
  }

  lemma {:induction false} SameDigestSameRow(w: Primitives, texts: set<string>, x: Row, y: Row)
    requires w.CollisionFree(texts) && RowText(x) in texts && RowText(y) in texts
    requires RowDigest(w, x) == RowDigest(w, y)
    ensures x == y
  {
    assert RowText(x) == RowText(y);
    RowTextInjective(x, y);
  }

  /** One digest pins a whole accepted journal, unless two of the rows involved collide. */
  lemma {:induction false} LastDigestPinsJournal(w: Primitives, a: seq<Row>, b: seq<Row>)
    requires a != [] && b != [] && Replay(w, a).Some? && Replay(w, b).Some?
    requires w.CollisionFree(Texts(a) + Texts(b))
    requires Replay(w, a).value.previous == Replay(w, b).value.previous
    ensures a == b
  {
    LastRowOfReplay(w, a);
    LastRowOfReplay(w, b);
    var x, y := a[|a| - 1], b[|b| - 1];
    SameDigestSameRow(w, Texts(a) + Texts(b), x, y);
    if |a| > 1 {
      FewerCollide(w, a, b);
      LastDigestPinsJournal(w, a[..|a| - 1], b[..|b| - 1]);
    }
    SameFrontSameLast(a, b);
  }

  lemma {:induction false} FewerCollide(w: Primitives, a: seq<Row>, b: seq<Row>)
    requires a != [] && b != [] && w.CollisionFree(Texts(a) + Texts(b))
    requires Texts(a[..|a| - 1]) <= Texts(a) && Texts(b[..|b| - 1]) <= Texts(b)
    ensures w.CollisionFree(Texts(a[..|a| - 1]) + Texts(b[..|b| - 1]))
  {
  }

  lemma {:induction false} SameFrontSameLast(a: seq<Row>, b: seq<Row>)
    requires a != [] && |a| == |b| && a[|a| - 1] == b[|b| - 1] && a[..|a| - 1] == b[..|b| - 1]
    ensures a == b
  {
    assert a == a[..|a| - 1] + [a[|a| - 1]] && b == b[..|b| - 1] + [b[|b| - 1]];
  }

  /** The same for files: equal final digests of non-empty accepted files mean equal bytes. */
  lemma {:induction false} LastDigestPinsBytes(w: Primitives, a: string, b: string)
    requires Accepted(w, a).Some? && Accepted(w, b).Some? && Rows(a).Some? && Rows(b).Some? && a != "" && b != ""
    requires w.CollisionFree(Texts(Rows(a).value) + Texts(Rows(b).value))
    requires Accepted(w, a).value.previous == Accepted(w, b).value.previous
    ensures a == b
  {
    AcceptedRows(w, a);
    AcceptedRows(w, b);
    RowsDetermineBytes(a);
    RowsDetermineBytes(b);
    LastDigestPinsJournal(w, Rows(a).value, Rows(b).value);
  }

  // ---------------------------------------------------------------- bindings

  datatype Binding = Binding(
    nonce: string, tenantId: string, environmentId: string, endpointId: string, namespace: string,
    packetDigest: string, commandSetDigest: string, releaseDigest: string, capacityDigest: string,
    notBefore: string, notAfter: string)

  predicate Alphanumeric(c: char) {
    'a' <= c <= 'z' || '0' <= c <= '9'
  }

  /** Lower-case words joined by single dots or hyphens, at most 128 characters (schema.py, `require_id`). */
  predicate IsId(t: string) {
    && 0 < |t| <= 128 && 'a' <= t[0] <= 'z' && Alphanumeric(t[|t| - 1])
    && (forall i :: 0 <= i < |t| ==> Alphanumeric(t[i]) || t[i] == '.' || t[i] == '-')
    && (forall i :: 0 < i < |t| ==> Alphanumeric(t[i - 1]) || Alphanumeric(t[i]))
  }

  /** validate_binding. */
  predicate ValidBinding(w: Primitives, b: Binding) {
    && IsId(b.nonce) && IsId(b.tenantId) && IsId(b.environmentId) && IsId(b.endpointId) && IsId(b.namespace)
    && IsDigest(b.packetDigest) && IsDigest(b.commandSetDigest) && IsDigest(b.releaseDigest) && IsDigest(b.capacityDigest)
    && w.IsTime(b.notBefore) && w.IsTime(b.notAfter) && w.Instant(b.notBefore) < w.Instant(b.notAfter)
  }

  function BindingJson(b: Binding): Json {
    Obj([
      Member("capacityDigest", Str(b.capacityDigest)),
      Member("commandSetDigest", Str(b.commandSetDigest)),
      Member("endpointId", Str(b.endpointId)),
      Member("environmentId", Str(b.environmentId)),
      Member("namespace", Str(b.namespace)),
      Member("nonce", Str(b.nonce)),
      Member("notAfter", Str(b.notAfter)),
      Member("notBefore", Str(b.notBefore)),
      Member("packetDigest", Str(b.packetDigest)),
      Member("releaseDigest", Str(b.releaseDigest)),
      Member("tenantId", Str(b.tenantId))])
  }

  function BindingDigest(w: Primitives, b: Binding): string {
    w.Digest(BindingJson(b))
  }

  function KeyJson(b: Binding): Json {
    Obj([Member("nonce", Str(b.nonce)), Member("tenantId", Str(b.tenantId))])
  }

  function KeyText(b: Binding): string {
    KEY_DOMAIN + Encode(KeyJson(b))
  }

  /** replay_key: tenant and nonce only, never a release or version. */
  function ReplayKey(w: Primitives, b: Binding): string {
    w.hash(KeyText(b))
  }

  // ---------------------------------------------------------------- one transaction

  /** The transition rules of `_record` for one state, given the key's last row. */
  function RecordRules(w: Primitives, prior: Option<Row>, b: Binding, state: State, instant: int): Outcome<()>
    requires ValidBinding(w, b) && (prior.Some? ==> w.IsTime(prior.value.observedAt))
  {
    if state == RESERVED then
      if prior.Some? then Refused("REPLAY_DETECTED")
      else if !(w.Instant(b.notBefore) <= instant < w.Instant(b.notAfter)) then Refused("REPLAY_EXPIRED")
      else Ok(())
    else if prior.None? || prior.value.bindingDigest != BindingDigest(w, b) || !Edge(prior.value.state, state) then
      Refused("REPLAY_TRANSITION_INVALID")
    else if instant < w.Instant(prior.value.observedAt) then Refused("REPLAY_CLOCK_ROLLBACK")
    else if state == EXPIRED && instant < w.Instant(b.notAfter) then Refused("REPLAY_EARLY_EXPIRY")
    else if state in {RUNNING, COMPLETED} && instant >= w.Instant(b.notAfter) then Refused("REPLAY_EXPIRED")
    else Ok(())
  }

  predicate ReceiptFits(state: State, receipt: Option<string>) {
    if Terminal(state) then receipt.Some? && IsDigest(receipt.value) else receipt.None?
  }

  function NewRow(w: Primitives, s: Replayed, b: Binding, state: State, now: string, receipt: Option<string>): Row {
    Row(s.count + 1, s.previous, ReplayKey(w, b), BindingDigest(w, b), state, now, receipt)
  }

  /** Everything `_record` decides before it writes: the row to append to a file holding `raw`, or the refusal. */
  function Decide(w: Primitives, raw: string, b: Binding, state: State, now: string, receipt: Option<string>): (r: Outcome<Row>)
    requires ValidBinding(w, b) && w.IsTime(now)
  {
    match Accepted(w, raw)
    case None => Refused("REPLAY_JOURNAL_CORRUPT")
    case Some(s) =>
      match RecordRules(w, Lookup(s.latest, ReplayKey(w, b)), b, state, w.Instant(now))
      case Refused(reason) => Refused(reason)
      case Ok(_) =>
        if !ReceiptFits(state, receipt) then Refused("REPLAY_RECEIPT_INVALID")
        else
          var row := NewRow(w, s, b, state, now, receipt);
          var size := |RowText(row)| + 1;
          if s.count >= MAX_RECORDS || size > MAX_RECORD || |raw| + size > MAX_JOURNAL then Refused("REPLAY_JOURNAL_FULL")
          else Ok(row)
  }

  /** What `_record` appends is accepted by parse_journal, with exactly this key moved to exactly this row. */
  lemma {:induction false} AppendAccepted(w: Primitives, raw: string, b: Binding, state: State, now: string, receipt: Option<string>)
    requires w.DigestValued() && ValidBinding(w, b) && w.IsTime(now)
    requires Decide(w, raw, b, state, now, receipt).Ok?
    ensures var row := Decide(w, raw, b, state, now, receipt).value;
            && Accepted(w, raw).Some?
            && row.replayKey == ReplayKey(w, b) && row.state == state && row.observedAt == now
            && Accepted(w, raw + (RowText(row) + "\n")) ==
               Some(Replayed(Accepted(w, raw).value.latest[ReplayKey(w, b) := row], RowDigest(w, row), Accepted(w, raw).value.count + 1))
  {
    var s := Accepted(w, raw).value;
    var row := Decide(w, raw, b, state, now, receipt).value;
    AcceptedRows(w, raw);
    AcceptedRows(w, raw + (RowText(row) + "\n"));
    var rows := Rows(raw).value;
    RowsAppend(raw, row);
    assert (rows + [row])[..|rows|] == rows;
    assert RowShape(w, row) && Follows(w, Lookup(s.latest, row.replayKey), row);
    assert Step(w, s, row).Some?;
  }

  lemma {:induction false} Unterminated(w: Primitives, raw: string, torn: string)
    requires Printable(torn) && torn != ""
    ensures Accepted(w, raw + torn).None?
  {
  }

  /** After a crash inside the append the file is the old journal, the new journal, or refused. */
  lemma {:induction false} CrashSafe(w: Primitives, raw: string, row: Row, written: nat)
    requires written <= |RowText(row)| + 1
    ensures var after := raw + (RowText(row) + "\n")[..written];
            && (written == 0 ==> after == raw)
            && (written == |RowText(row)| + 1 ==> after == raw + (RowText(row) + "\n"))
            && (0 < written <= |RowText(row)| ==> Accepted(w, after).None?)
  {
    var line := RowText(row) + "\n";
    if 0 < written <= |RowText(row)| {
      RowRead(row);
      Unterminated(w, raw, line[..written]);
    } else if written == |line| {
      assert line[..written] == line;
    }
  }

  /** Two bindings with the same tenant and nonce have one key, whatever else they say. */
  lemma {:induction false} KeyIgnoresTheRest(w: Primitives, a: Binding, b: Binding)
    requires a.tenantId == b.tenantId && a.nonce == b.nonce
    ensures ReplayKey(w, a) == ReplayKey(w, b)
  {
  }

  /** Conversely equal keys mean equal tenant and nonce, unless the two key texts collide. */
  lemma {:induction false} KeyPinsTenantAndNonce(w: Primitives, a: Binding, b: Binding)
    requires ReplayKey(w, a) == ReplayKey(w, b)
    requires w.CollisionFree({KeyText(a), KeyText(b)})
    ensures a.tenantId == b.tenantId && a.nonce == b.nonce
  {
    assert KeyText(a)[|KEY_DOMAIN|..] == Encode(KeyJson(a)) && KeyText(b)[|KEY_DOMAIN|..] == Encode(KeyJson(b));
    EncodeInjective(KeyJson(a), KeyJson(b));
    assert KeyJson(a).members[0] == KeyJson(b).members[0] && KeyJson(a).members[1] == KeyJson(b).members[1];
  }

  /** A key that occurs in an accepted journal can never be reserved again, under any binding with its tenant and nonce. */
  lemma {:induction false} NeverReservedAgain(w: Primitives, raw: string, used: Binding, b: Binding, now: string)
    requires ValidBinding(w, b) && w.IsTime(now) && Accepted(w, raw).Some?
    requires used.tenantId == b.tenantId && used.nonce == b.nonce
    requires Rows(raw).Some? && RowsOfKey(Rows(raw).value, ReplayKey(w, used)) != []
    ensures Decide(w, raw, b, RESERVED, now, None) == Refused("REPLAY_DETECTED")
  {
    AcceptedRows(w, raw);
    KeyIgnoresTheRest(w, used, b);
    LifeOfKey(w, Rows(raw).value, ReplayKey(w, used));
  }

  // ---------------------------------------------------------------- the journal object

  /** What one transaction comes to: its answer, whether the object is poisoned behind it, and the bytes it added. */
  datatype Done = Done(outcome: Outcome<string>, poisoned: bool, wrote: string)

  /** A row on its way to the file: any doubt after the first byte poisons. */
  function Wrote(w: Primitives, row: Row, fault: Fault): Done {
    var line := RowText(row) + "\n";
    Done(
      match fault
      case NoFault => Ok(RowDigest(w, row))
      case Unavailable => Refused("REPLAY_BUSY")
      case Torn(_) => Refused("REPLAY_SHORT_WRITE")
      case Unconfirmed => Refused("REPLAY_CUSTODY_CHANGED"),
      !fault.NoFault?, line[..Written(line, fault)])
  }

  /** What becomes of a decision: a refusal writes nothing, a row goes to the file. */
  function Settled(w: Primitives, poisoned: bool, decision: Outcome<Row>, fault: Fault): Done {
    if poisoned then Done(Refused("REPLAY_STORAGE_AMBIGUOUS"), true, "")
    else if fault.Unavailable? then Done(Refused("REPLAY_BUSY"), false, "")
    else
      match decision
      case Refused(reason) => Done(Refused(reason), false, "")
      case Ok(row) => Wrote(w, row, fault)
  }

  /** `_record` on an object that is or is not poisoned, over a file holding `raw`. */
  function Recorded(w: Primitives, poisoned: bool, raw: string, b: Binding, state: State, now: string,
                    receipt: Option<string>, fault: Fault): Done
  {
    if !ValidBinding(w, b) then Done(Refused("SESSION_WINDOW_INVALID"), poisoned, "")
    else if !w.IsTime(now) then Done(Refused("LINUX_TIME_INVALID"), poisoned, "")
    else Settled(w, poisoned, Decide(w, raw, b, state, now, receipt), fault)
  }

  /** The refusals that storage alone can cause: poison, contention, a full file, a failed write or read-back. */
  const STORAGE_REASONS: set<string> :=
    {"REPLAY_STORAGE_AMBIGUOUS", "REPLAY_BUSY", "REPLAY_JOURNAL_FULL", "REPLAY_SHORT_WRITE", "REPLAY_CUSTODY_CHANGED"}

  /** Whole line and success, or a refusal that left either nothing or a poisoned object behind. */
  lemma {:induction false} SettledMeans(w: Primitives, poisoned: bool, decision: Outcome<Row>, fault: Fault)
    ensures var d := Settled(w, poisoned, decision, fault);
            && (d.outcome.Ok? ==> !poisoned && !d.poisoned && decision.Ok? && d.outcome.value == RowDigest(w, decision.value)
                                  && d.wrote == RowText(decision.value) + "\n")
            && (d.outcome.Refused? ==> d.poisoned || d.wrote == "")
            && (poisoned ==> d.outcome.Refused? && d.poisoned && d.wrote == "")
            && (decision.Ok? || decision.reason in STORAGE_REASONS ==> d.outcome.Ok? || d.outcome.reason in STORAGE_REASONS)
  {
    if decision.Ok? {
      var line := RowText(decision.value) + "\n";
      assert line[..|line|] == line;
    }
  }

  /** Success means that the file with the new bytes is accepted, and that the key's last row is the one asked for. */
  lemma {:induction false} RecordedIsDurable(w: Primitives, poisoned: bool, raw: string, b: Binding, state: State, now: string,
                                             receipt: Option<string>, fault: Fault)
    requires w.DigestValued() && Recorded(w, poisoned, raw, b, state, now, receipt, fault).outcome.Ok?
    ensures var d := Recorded(w, poisoned, raw, b, state, now, receipt, fault);
            && !poisoned && !d.poisoned && ValidBinding(w, b) && w.IsTime(now)
            && Decide(w, raw, b, state, now, receipt).Ok? && Accepted(w, raw).Some?
            && var row := Decide(w, raw, b, state, now, receipt).value;
               && row.state == state && d.wrote == RowText(row) + "\n" && d.outcome.value == RowDigest(w, row)
               && Accepted(w, raw + d.wrote) ==
                  Some(Replayed(Accepted(w, raw).value.latest[ReplayKey(w, b) := row], RowDigest(w, row), Accepted(w, raw).value.count + 1))
  {
    SettledMeans(w, poisoned, Decide(w, raw, b, state, now, receipt), fault);
    AppendAccepted(w, raw, b, state, now, receipt);
  }

  class Journal {
    const w: Primitives
    const storage: Storage
    var poisoned: bool

    constructor (w: Primitives, storage: Storage)
      ensures this.w == w && this.storage == storage && !poisoned
    {
      this.w, this.storage, poisoned := w, storage, false;
    }

    /**
      `_record`.  A refusal leaves file and object untouched; success means the row is durable and is
      the file's new last row; any doubt after the first written byte poisons the object for good.
     */
    method Record(b: Binding, state: State, now: string, receipt: Option<string>, fault: Fault) returns (r: Outcome<string>)
      modifies this, storage
      ensures var d := Recorded(w, old(poisoned), old(storage.content), b, state, now, receipt, fault);
              r == d.outcome && poisoned == d.poisoned && storage.content == old(storage.content) + d.wrote
    {
      if !ValidBinding(w, b) {
        return Refused("SESSION_WINDOW_INVALID");
      }
      if !w.IsTime(now) {
        return Refused("LINUX_TIME_INVALID");
      }
      if poisoned {
        return Refused("REPLAY_STORAGE_AMBIGUOUS");
      }
      if fault.Unavailable? {
        return Refused("REPLAY_BUSY");
      }
      var row := Plan(b, state, now, receipt);
      if row.Refused? {
        return Refused(row.reason);
      }
      r := Write(row.value, fault);
    }

    /** The file is read and every rule checked before the first byte is written. */
    method Plan(b: Binding, state: State, now: string, receipt: Option<string>) returns (r: Outcome<Row>)
      requires ValidBinding(w, b) && w.IsTime(now)
      ensures r == Decide(w, storage.content, b, state, now, receipt)
    {
      var raw := storage.content;
      var parsed := ParseJournal(w, raw);
      if parsed.None? {
        return Refused("REPLAY_JOURNAL_CORRUPT");
      }
      var s := parsed.value;
      var rules := RecordRules(w, Lookup(s.latest, ReplayKey(w, b)), b, state, w.Instant(now));
      if rules.Refused? {
        return Refused(rules.reason);
      }
      if !ReceiptFits(state, receipt) {
        return Refused("REPLAY_RECEIPT_INVALID");
      }
      var row := NewRow(w, s, b, state, now, receipt);
      var size := |RowText(row)| + 1;
      if s.count >= MAX_RECORDS || size > MAX_RECORD || |raw| + size > MAX_JOURNAL {
        return Refused("REPLAY_JOURNAL_FULL");
      }
      r := Ok(row);
    }

    /** Append, sync and read back; any doubt poisons the object. */
    method Write(row: Row, fault: Fault) returns (r: Outcome<string>)
      requires !poisoned && !fault.Unavailable?
      modifies this, storage
      ensures var d := Wrote(w, row, fault);
              r == d.outcome && poisoned == d.poisoned && storage.content == old(storage.content) + d.wrote
    {
      var before, encoded := storage.content, RowText(row) + "\n";
      var appended := storage.Append(encoded, fault);
      if !appended {
        poisoned := true;
        return Refused("REPLAY_SHORT_WRITE");
      }
      if fault.Unconfirmed? || storage.content != before + encoded {
        poisoned := true;
        return Refused("REPLAY_CUSTODY_CHANGED");
      }
      r := Ok(RowDigest(w, row));
    }
  }
}
