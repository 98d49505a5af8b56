/** What holds in every run of the CREATE pipeline, whatever fails and in whatever order its steps are called. */
module CreateRuns {
  import opened Prelude
  import opened CanonicalJson
  import opened Digests
  import opened DurableFile
  import opened CreatePipeline
  import Cases
  import T = BrokerTranscript
  import H = BrokerHistory
  import L = AdmissionLedger
  import F = AdmissionLog
  import P = Profiles

  // ---------------------------------------------------------------- runs

  datatype Step =
    | DoPoll(frame: Option<T.Frame>, g: Guards)
    | DoIntent(now: string, g: Guards, fault: Fault)
    | DoPrepare(g: Guards)
    | DoExchange(g: Guards, response: Option<string>)
    | DoCreated(now: string, g: Guards, fault: Fault)
    | DoSend(g: Guards)
    | DoRetire(g: Guards)

  function Next(c: Setup, p: Pipe, step: Step): Pipe {
    match step
    case DoPoll(frame, g) => Poll(c, p, frame, g)
    case DoIntent(now, g, fault) => RecordIntent(c, p, now, g, fault)
    case DoPrepare(g) => PrepareApi(c, p, g)
    case DoExchange(g, response) => Exchange(c, p, g, response)
    case DoCreated(now, g, fault) => RecordCreated(c, p, now, g, fault)
    case DoSend(g) => SendResult(c, p, g)
    case DoRetire(g) => Retire(c, p, g)
  }

  function Steps(c: Setup, p: Pipe, steps: seq<Step>): Pipe {
    if steps == [] then p else Next(c, Steps(c, p, steps[..|steps| - 1]), steps[|steps| - 1])
  }

  /** The pipeline right after STARTED: nothing attempted, the stored ledger retained as the pin. */
  predicate Fresh(c: Setup, start: string, p: Pipe) {
    && F.Accepted(c.w, start).Some? && H.Phase(p.transcript)
    && p == Pipe(start, false, p.transcript, false, start, H.SnapshotOf(c.w, p.transcript), None, Absent, None, None, None, false, [])
  }

  // ---------------------------------------------------------------- the invariant

  /** The intent on the books is exactly the row derived from the pending action. */
  predicate IntentExact(c: Setup, start: string, p: Pipe) {
    p.intent.Some? ==>
      && p.intent.value.before == start
      && p.intent.value.action.verb == P.CREATE
      && RowFor(c, start, L.CREATE_INTENT, p.intent.value.row.observedAt, p.intent.value.action, None) == Some(p.intent.value.row)
  }

  /** The confirmation on the books is exactly the row derived from the exchange's response. */
  predicate CreatedExact(c: Setup, start: string, p: Pipe) {
    p.created.Some? ==>
      && p.intent.Some? && p.exchange.Some?
      && p.created.value.before == start + Line(p.intent.value.row)
      && RowFor(c, p.created.value.before, L.CREATED, p.created.value.row.observedAt, p.intent.value.action, ObservedIn(p.exchange.value))
         == Some(p.created.value.row)
  }

  function Books(start: string, p: Pipe): string {
    start + (if p.intent.Some? then Line(p.intent.value.row) else "") + (if p.created.Some? then Line(p.created.value.row) else "")
  }

  predicate ApiWriteExact(c: Setup, start: string, p: Pipe, e: Effect) {
    && p.intent.Some? && e.ApiWrite? && e.ledger == start + Line(p.intent.value.row)
    && RequestFor(c, p.intent.value.action) == Some(e.request)
  }

  predicate ResultExact(start: string, p: Pipe, e: Effect) {
    && p.intent.Some? && p.created.Some? && p.exchange.Some? && e.ResultSend?
    && e.ledger == p.created.value.before + Line(p.created.value.row)
    && e.frame.payload == T.ResourceResult(p.intent.value.action.actionId, T.CREATED, p.exchange)
  }

  /** No effect, or the request alone, or the request and then the result. */
  predicate EffectsExact(c: Setup, start: string, p: Pipe) {
    && |p.effects| <= 2
    && (|p.effects| >= 1 ==> ApiWriteExact(c, start, p, p.effects[0]))
    && (|p.effects| == 2 ==> ResultExact(start, p, p.effects[1]))
  }

  /** While nothing failed, the flags tell how far the pipeline has come. */
  predicate Ordered(c: Setup, p: Pipe) {
    !p.failed ==>
      && Intact(c, p)
      && (p.intent.None? ==> p.exchange.None?) && (p.exchange.None? ==> p.created.None? && p.effects == [])
      && (p.created.None? ==> p.result.None?) && (p.exchange.Some? ==> |p.effects| >= 1) && (p.result.None? ==> |p.effects| <= 1 && !p.retired)
      && (p.result.Some? ==> |p.effects| == 2)
      && (p.intent.Some? && !p.retired ==> PendingIs(p, p.intent.value.action))
      && (p.retired ==> p.api == Closed)
      && (p.result.Some? && !p.retired ==> !AdvanceMismatch(c, p))
  }

  predicate Safe(c: Setup, start: string, p: Pipe) {
    && H.Phase(p.transcript) && p.ledgerRaw == Books(start, p) && p.ledgerRaw <= p.stored
    && IntentExact(c, start, p) && CreatedExact(c, start, p) && EffectsExact(c, start, p) && Ordered(c, p)
  }

  // ---------------------------------------------------------------- small facts

  lemma {:induction false} PhaseKept(w: Primitives, x: T.Setting, t: T.Transcript, f: T.Frame, sender: T.Sender)
    requires H.Phase(t) && T.Accept(w, x, t, f, sender).Some?
    ensures H.Phase(T.Accept(w, x, t, f, sender).value)
  {
    if f.payload.ReceiptChunk? {
      ChunkKept(w, x, t, f, sender);
    }
  }

  lemma {:induction false} ChunkKept(w: Primitives, x: T.Setting, t: T.Transcript, f: T.Frame, sender: T.Sender)
    requires H.Phase(t) && f.payload.ReceiptChunk? && T.Accept(w, x, t, f, sender).Some?
    ensures H.Phase(T.Accept(w, x, t, f, sender).value)
  {
    H.JoinMore(t.chunks, f.payload.data);
  }

  lemma {:induction false} LeftGrows(before: string, text: string, fault: Fault)
    ensures before <= Left(before, text, fault)
    ensures fault.NoFault? ==> Left(before, text, fault) == before + text
  {
    assert text[..|text|] == text;
  }

  lemma {:induction false} RowTimed(c: Setup, ledger: string, state: L.RowState, now: string, action: P.Action, observed: Option<Json>)
    requires RowFor(c, ledger, state, now, action, observed).Some?
    ensures RowFor(c, ledger, state, now, action, observed).value.observedAt == now
  {
  }

  lemma {:induction false} BooksIntent(start: string, line: string)
    ensures start + line + "" == start + line && start + "" + "" == start
  {
  }

  // ---------------------------------------------------------------- every step is safe

  lemma {:induction false} RefuseSafe(c: Setup, start: string, p: Pipe, poison: bool)
    requires Safe(c, start, p)
    ensures Safe(c, start, Refuse(p, poison))
  {
  }

  lemma {:induction false} AdvancedSafe(c: Setup, start: string, p: Pipe, t: T.Transcript)
    requires Safe(c, start, p) && Intact(c, p) && !p.retired && p.transcript.pending.None? && H.Phase(t)
    ensures Safe(c, start, p.(transcript := t, transcriptRaw := H.SnapshotOf(c.w, t)))
  {
  }

  /** How a poll can end. */
  predicate PollEnds(c: Setup, p: Pipe, t: Option<T.Transcript>, r: Pipe) {
    || r == p || r == Refuse(p, false)
    || (&& Intact(c, p) && !p.retired && p.transcript.pending.None? && t.Some?
        && var advanced := p.(transcript := t.value, transcriptRaw := H.SnapshotOf(c.w, t.value));
           r == advanced || r == Refuse(advanced, false))
  }

  lemma {:induction false} PollEndsSo(c: Setup, p: Pipe, frame: Option<T.Frame>, g: Guards) returns (t: Option<T.Transcript>)
    ensures PollEnds(c, p, t, Poll(c, p, frame, g))
    ensures t.Some? ==> frame.Some? && T.Accept(c.w, c.x, p.transcript, frame.value, T.BROKER) == t
  {
    t := if frame.Some? then T.Accept(c.w, c.x, p.transcript, frame.value, T.BROKER) else None;
  }

  lemma {:induction false} PollEndSafe(c: Setup, start: string, p: Pipe, t: Option<T.Transcript>, r: Pipe)
    requires Safe(c, start, p) && PollEnds(c, p, t, r) && (t.Some? ==> H.Phase(t.value))
    ensures Safe(c, start, r)
  {
    if r == Refuse(p, false) {
      RefuseSafe(c, start, p, false);
    } else if r != p {
      var advanced := p.(transcript := t.value, transcriptRaw := H.SnapshotOf(c.w, t.value));
      AdvancedSafe(c, start, p, t.value);
      RefuseSafe(c, start, advanced, false);
    }
  }

  lemma {:induction false} PollSafe(c: Setup, start: string, p: Pipe, frame: Option<T.Frame>, g: Guards)
    requires Safe(c, start, p)
    ensures Safe(c, start, Poll(c, p, frame, g))
  {
    var t := PollEndsSo(c, p, frame, g);
    if t.Some? {
      PhaseKept(c.w, c.x, p.transcript, frame.value, T.BROKER);
    }
    PollEndSafe(c, start, p, t, Poll(c, p, frame, g));
  }

  predicate PrepareEnds(c: Setup, p: Pipe, r: Pipe) {
    r == Refuse(p, false) || (Intact(c, p) && p.api == Absent && r == p.(api := Ready))
  }

  lemma {:induction false} PrepareEndsSo(c: Setup, p: Pipe, g: Guards)
    ensures PrepareEnds(c, p, PrepareApi(c, p, g))
  {
  }

  lemma {:induction false} ReadySafe(c: Setup, start: string, p: Pipe)
    requires Safe(c, start, p) && Intact(c, p) && p.api == Absent
    ensures Safe(c, start, p.(api := Ready))
  {
  }

  lemma {:induction false} PrepareSafe(c: Setup, start: string, p: Pipe, g: Guards)
    requires Safe(c, start, p)
    ensures Safe(c, start, PrepareApi(c, p, g))
  {
    PrepareEndsSo(c, p, g);
    if PrepareApi(c, p, g) == Refuse(p, false) {
      RefuseSafe(c, start, p, false);
    } else {
      ReadySafe(c, start, p);
    }
  }

  /** A write in doubt: the file may have grown, the pin has not. */
  lemma {:induction false} DoubtSafe(c: Setup, start: string, p: Pipe, line: string, fault: Fault)
    requires Safe(c, start, p) && Intact(c, p)
    ensures Safe(c, start, Refuse(p.(stored := Left(p.stored, line, fault)), true))
  {
    LeftGrows(p.stored, line, fault);
  }

  lemma {:induction false} IntentAdvanced(c: Setup, start: string, p: Pipe, action: P.Action, now: string, row: L.Row, after: string)
    requires Safe(c, start, p) && Intact(c, p) && p.intent.None? && PendingIs(p, action) && action.verb == P.CREATE
    requires RowFor(c, p.ledgerRaw, L.CREATE_INTENT, now, action, None) == Some(row)
    requires after == p.ledgerRaw + Line(row)
    ensures Safe(c, start, p.(stored := after, ledgerRaw := after, intent := Some(Intent(action, row, p.ledgerRaw))))
  {
    BooksIntent(start, Line(row));
    RowTimed(c, p.ledgerRaw, L.CREATE_INTENT, now, action, None);
  }

  lemma {:induction false} IntentSafe(c: Setup, start: string, p: Pipe, now: string, g: Guards, fault: Fault)
    requires Safe(c, start, p)
    ensures Safe(c, start, RecordIntent(c, p, now, g, fault))
  {
    var row := IntentRow(c, p, now, g);
    if row.None? {
      RefuseSafe(c, start, p, p.intent.Some?);
    } else {
      WriteIntentSafe(c, start, p, p.transcript.pending.value, now, row.value, g, fault);
    }
  }

  lemma {:induction false} WriteIntentSafe(c: Setup, start: string, p: Pipe, action: P.Action, now: string, row: L.Row, g: Guards, fault: Fault)
    requires Safe(c, start, p) && Intact(c, p) && p.intent.None? && PendingIs(p, action) && action.verb == P.CREATE
    requires RowFor(c, p.ledgerRaw, L.CREATE_INTENT, now, action, None) == Some(row)
    ensures Safe(c, start, WriteIntent(p, row, g, fault))
  {
    var after := Left(p.stored, Line(row), fault);
    DoubtSafe(c, start, p, Line(row), fault);
    if fault.NoFault? {
      LeftGrows(p.stored, Line(row), fault);
      IntentAdvanced(c, start, p, action, now, row, after);
      RefuseSafe(c, start, p.(stored := after, ledgerRaw := after, intent := Some(Intent(action, row, p.ledgerRaw))), true);
    }
  }

  lemma {:induction false} AttemptSafe(c: Setup, start: string, p: Pipe, request: Request)
    requires Safe(c, start, p) && Intact(c, p) && p.intent.Some? && p.exchange.None?
    requires RequestFor(c, p.intent.value.action) == Some(request)
    ensures Safe(c, start, Refuse(p.(effects := p.effects + [ApiWrite(p.stored, request)]), true))
  {
    BooksIntent(start, Line(p.intent.value.row));
  }

  lemma {:induction false} AnsweredSafe(c: Setup, start: string, p: Pipe, request: Request, response: Option<string>)
    requires Safe(c, start, p) && Intact(c, p) && p.intent.Some? && p.exchange.None? && response.Some?
    requires RequestFor(c, p.intent.value.action) == Some(request)
    ensures Safe(c, start, p.(effects := p.effects + [ApiWrite(p.stored, request)], exchange := response))
  {
    BooksIntent(start, Line(p.intent.value.row));
  }

  /** How an exchange can end. */
  predicate ExchangeEnds(c: Setup, p: Pipe, response: Option<string>, r: Pipe) {
    || r == Refuse(p, p.intent.Some?)
    || (&& Intact(c, p) && p.intent.Some? && p.exchange.None? && RequestFor(c, p.intent.value.action).Some?
        && var attempted := p.(effects := p.effects + [ApiWrite(p.stored, RequestFor(c, p.intent.value.action).value)]);
           r == Refuse(attempted, true) || (response.Some? && r == attempted.(exchange := response)))
  }

  lemma {:induction false} ExchangeEndsSo(c: Setup, p: Pipe, g: Guards, response: Option<string>)
    ensures ExchangeEnds(c, p, response, Exchange(c, p, g, response))
  {
  }

  lemma {:induction false} ExchangeEndSafe(c: Setup, start: string, p: Pipe, response: Option<string>, r: Pipe)
    requires Safe(c, start, p) && ExchangeEnds(c, p, response, r)
    ensures Safe(c, start, r)
  {
    if r == Refuse(p, p.intent.Some?) {
      RefuseSafe(c, start, p, p.intent.Some?);
    } else {
      AttemptSafe(c, start, p, RequestFor(c, p.intent.value.action).value);
      if response.Some? {
        AnsweredSafe(c, start, p, RequestFor(c, p.intent.value.action).value, response);
      }
    }
  }

  lemma {:induction false} ExchangeSafe(c: Setup, start: string, p: Pipe, g: Guards, response: Option<string>)
    requires Safe(c, start, p)
    ensures Safe(c, start, Exchange(c, p, g, response))
  {
    ExchangeEndsSo(c, p, g, response);
    ExchangeEndSafe(c, start, p, response, Exchange(c, p, g, response));
  }

  lemma {:induction false} CreatedAdvanced(c: Setup, start: string, p: Pipe, now: string, row: L.Row, after: string)
    requires Safe(c, start, p) && Intact(c, p) && p.created.None? && p.intent.Some? && p.exchange.Some?
    requires RowFor(c, p.ledgerRaw, L.CREATED, now, p.intent.value.action, ObservedIn(p.exchange.value)) == Some(row)
    requires after == p.ledgerRaw + Line(row)
    ensures Safe(c, start, p.(stored := after, ledgerRaw := after, created := Some(Created(row, p.ledgerRaw))))
  {
    BooksIntent(start, Line(p.intent.value.row));
    RowTimed(c, p.ledgerRaw, L.CREATED, now, p.intent.value.action, ObservedIn(p.exchange.value));
  }

  predicate CreatedEnds(c: Setup, p: Pipe, now: string, fault: Fault, row: Option<L.Row>, r: Pipe) {
    || r == Refuse(p, p.intent.Some?)
    || (&& Intact(c, p) && p.created.None? && p.intent.Some? && p.exchange.Some? && row.Some?
        && RowFor(c, p.ledgerRaw, L.CREATED, now, p.intent.value.action, ObservedIn(p.exchange.value)) == row
        && var after := Left(p.stored, Line(row.value), fault);
           var advanced := p.(stored := after, ledgerRaw := after, created := Some(Created(row.value, p.ledgerRaw)));
           || r == Refuse(p.(stored := after), true)
           || (fault.NoFault? && (r == advanced || r == Refuse(advanced, true))))
  }

  lemma {:induction false} CreatedEndsSo(c: Setup, p: Pipe, now: string, g: Guards, fault: Fault)
    ensures CreatedEnds(c, p, now, fault, CreatedRow(c, p, now, g), RecordCreated(c, p, now, g, fault))
  {
    if CreatedRow(c, p, now, g).Some? {
      CreatedRowMeans(c, p, now, g);
    }
  }

  lemma {:induction false} CreatedEndSafe(c: Setup, start: string, p: Pipe, now: string, fault: Fault, row: Option<L.Row>, r: Pipe)
    requires Safe(c, start, p) && CreatedEnds(c, p, now, fault, row, r)
    ensures Safe(c, start, r)
  {
    if r == Refuse(p, p.intent.Some?) {
      RefuseSafe(c, start, p, p.intent.Some?);
    } else {
      var after := Left(p.stored, Line(row.value), fault);
      DoubtSafe(c, start, p, Line(row.value), fault);
      if fault.NoFault? {
        LeftGrows(p.stored, Line(row.value), fault);
        CreatedAdvanced(c, start, p, now, row.value, after);
        RefuseSafe(c, start, p.(stored := after, ledgerRaw := after, created := Some(Created(row.value, p.ledgerRaw))), true);
      }
    }
  }

  lemma {:induction false} CreatedSafe(c: Setup, start: string, p: Pipe, now: string, g: Guards, fault: Fault)
    requires Safe(c, start, p)
    ensures Safe(c, start, RecordCreated(c, p, now, g, fault))
  {
    CreatedEndsSo(c, p, now, g, fault);
    CreatedEndSafe(c, start, p, now, fault, CreatedRow(c, p, now, g), RecordCreated(c, p, now, g, fault));
  }

  predicate SendEnds(c: Setup, p: Pipe, t: Option<T.Transcript>, r: Pipe) {
    || r == Refuse(p, true) || r == Refuse(p, false)
    || (&& Intact(c, p) && p.result.None? && p.created.Some? && p.intent.Some? && p.exchange.Some? && t.Some?
        && var frame := ResultFrame(c, p.transcript, p.intent.value.action, p.exchange.value);
           var sent := p.effects + [ResultSend(p.stored, frame)];
           && T.Accept(c.w, c.x, p.transcript, frame, T.SERVER) == t
           && (r == Refuse(p.(effects := sent), true)
               || r == p.(effects := sent, result := Some(Delivery(frame, H.SnapshotOf(c.w, t.value))))))
  }

  lemma {:induction false} SendEndsSo(c: Setup, p: Pipe, g: Guards) returns (t: Option<T.Transcript>)
    requires H.Phase(p.transcript)
    ensures SendEnds(c, p, t, SendResult(c, p, g))
  {
    t := None;
    if p.result.None? && Intact(c, p) && p.created.Some? && p.intent.Some? && p.exchange.Some? && PendingIs(p, p.intent.value.action) {
      H.RebuiltExactly(c.w, p.transcript);
      t := T.Accept(c.w, c.x, p.transcript, ResultFrame(c, p.transcript, p.intent.value.action, p.exchange.value), T.SERVER);
    }
  }

  lemma {:induction false} SentEffects(c: Setup, start: string, p: Pipe, q: Pipe, e: Effect)
    requires EffectsExact(c, start, p) && |p.effects| == 1 && ResultExact(start, p, e)
    requires q == p.(effects := p.effects + [e], result := q.result)
    ensures EffectsExact(c, start, q)
  {
    assert q.effects[0] == p.effects[0];
    assert ApiWriteExact(c, start, p, p.effects[0]);
    assert ApiWriteExact(c, start, q, q.effects[0]);
    assert ResultExact(start, q, q.effects[1]);
  }

  lemma {:induction false} StoredNow(c: Setup, start: string, p: Pipe)
    requires Safe(c, start, p) && Intact(c, p) && p.intent.Some? && p.created.Some? && p.result.None?
    ensures p.stored == p.created.value.before + Line(p.created.value.row) && |p.effects| == 1 && !p.retired
  {
  }

  lemma {:induction false} SentSafe(c: Setup, start: string, p: Pipe, q: Pipe, frame: T.Frame, after: H.Snapshot)
    requires Safe(c, start, p) && Intact(c, p) && p.result.None? && p.created.Some? && p.intent.Some? && p.exchange.Some?
    requires q == p.(effects := p.effects + [ResultSend(p.stored, frame)], result := Some(Delivery(frame, after)))
    requires frame.payload == T.ResourceResult(p.intent.value.action.actionId, T.CREATED, p.exchange)
    requires !AdvanceMismatch(c, q)
    ensures Safe(c, start, q)
    ensures Safe(c, start, Refuse(p.(effects := q.effects), true))
  {
    StoredNow(c, start, p);
    SentEffects(c, start, p, q, ResultSend(p.stored, frame));
    SentEffects(c, start, p, p.(effects := q.effects), ResultSend(p.stored, frame));
  }

  lemma {:induction false} NoMismatch(c: Setup, q: Pipe, t: T.Transcript)
    requires q.result.Some? && T.Accept(c.w, c.x, q.transcript, q.result.value.frame, T.SERVER) == Some(t)
    requires q.result.value.after == H.SnapshotOf(c.w, t)
    ensures !AdvanceMismatch(c, q)
  {
  }

  lemma {:induction false} SendEndSafe(c: Setup, start: string, p: Pipe, t: Option<T.Transcript>, r: Pipe)
    requires Safe(c, start, p) && SendEnds(c, p, t, r)
    ensures Safe(c, start, r)
  {
    if r == Refuse(p, true) || r == Refuse(p, false) {
      RefuseSafe(c, start, p, true);
      RefuseSafe(c, start, p, false);
    } else {
      var frame := ResultFrame(c, p.transcript, p.intent.value.action, p.exchange.value);
      var q := p.(effects := p.effects + [ResultSend(p.stored, frame)], result := Some(Delivery(frame, H.SnapshotOf(c.w, t.value))));
      NoMismatch(c, q, t.value);
      SentSafe(c, start, p, q, frame, H.SnapshotOf(c.w, t.value));
    }
  }

  lemma {:induction false} SendSafe(c: Setup, start: string, p: Pipe, g: Guards)
    requires Safe(c, start, p)
    ensures Safe(c, start, SendResult(c, p, g))
  {
    var t := SendEndsSo(c, p, g);
    SendEndSafe(c, start, p, t, SendResult(c, p, g));
  }

  predicate RetireEnds(c: Setup, p: Pipe, t: Option<T.Transcript>, r: Pipe) {
    || r == Refuse(p, true) || r == Refuse(p, false)
    || (&& Intact(c, p) && !p.retired && p.result.Some? && t.Some? && p.result.value.after == H.SnapshotOf(c.w, t.value)
        && var advanced := p.(api := Closed, transcript := t.value, transcriptRaw := p.result.value.after, retired := true);
           r == advanced || r == Refuse(advanced, true))
  }

  lemma {:induction false} RetireEndsSo(c: Setup, p: Pipe, g: Guards) returns (t: Option<T.Transcript>)
    ensures RetireEnds(c, p, t, Retire(c, p, g))
    ensures t.Some? ==> p.result.Some? && T.Accept(c.w, c.x, p.transcript, p.result.value.frame, T.SERVER) == t
  {
    t := if p.result.Some? then T.Accept(c.w, c.x, p.transcript, p.result.value.frame, T.SERVER) else None;
  }

  lemma {:induction false} RetiredSafe(c: Setup, start: string, p: Pipe, t: T.Transcript)
    requires Safe(c, start, p) && Intact(c, p) && !p.retired && p.result.Some?
    requires H.Phase(t) && p.result.value.after == H.SnapshotOf(c.w, t)
    ensures Safe(c, start, p.(api := Closed, transcript := t, transcriptRaw := p.result.value.after, retired := true))
  {
  }

  lemma {:induction false} RetireEndSafe(c: Setup, start: string, p: Pipe, t: Option<T.Transcript>, r: Pipe)
    requires Safe(c, start, p) && RetireEnds(c, p, t, r) && (t.Some? ==> H.Phase(t.value))
    ensures Safe(c, start, r)
  {
    if r == Refuse(p, true) || r == Refuse(p, false) {
      RefuseSafe(c, start, p, true);
      RefuseSafe(c, start, p, false);
    } else {
      RetiredSafe(c, start, p, t.value);
      RefuseSafe(c, start, p.(api := Closed, transcript := t.value, transcriptRaw := p.result.value.after, retired := true), true);
    }
  }

  lemma {:induction false} RetireSafe(c: Setup, start: string, p: Pipe, g: Guards)
    requires Safe(c, start, p)
    ensures Safe(c, start, Retire(c, p, g))
  {
    var t := RetireEndsSo(c, p, g);
    if t.Some? {
      PhaseKept(c.w, c.x, p.transcript, p.result.value.frame, T.SERVER);
    }
    RetireEndSafe(c, start, p, t, Retire(c, p, g));
  }

  lemma {:induction false} LedgerStepSafe(c: Setup, start: string, p: Pipe, step: Step)
    requires Safe(c, start, p) && (step.DoIntent? || step.DoCreated?)
    ensures Safe(c, start, Next(c, p, step))
  {
    match step
    case DoIntent(now, g, fault) => IntentSafe(c, start, p, now, g, fault);
    case DoCreated(now, g, fault) => CreatedSafe(c, start, p, now, g, fault);
  }

  lemma {:induction false} ApiStepSafe(c: Setup, start: string, p: Pipe, step: Step)
    requires Safe(c, start, p) && (step.DoPrepare? || step.DoExchange?)
    ensures Safe(c, start, Next(c, p, step))
  {
    match step
    case DoPrepare(g) => PrepareSafe(c, start, p, g);
    case DoExchange(g, response) => ExchangeSafe(c, start, p, g, response);
  }

  lemma {:induction false} FrameStepSafe(c: Setup, start: string, p: Pipe, step: Step)
    requires Safe(c, start, p) && (step.DoPoll? || step.DoSend?)
    ensures Safe(c, start, Next(c, p, step))
  {
    match step
    case DoPoll(frame, g) => PollSafe(c, start, p, frame, g);
    case DoSend(g) => SendSafe(c, start, p, g);
  }

  lemma {:induction false} NextSafe(c: Setup, start: string, p: Pipe, step: Step)
    requires Safe(c, start, p)
    ensures Safe(c, start, Next(c, p, step))
  {
    if step.DoIntent? || step.DoCreated? {
      LedgerStepSafe(c, start, p, step);
    } else if step.DoPrepare? || step.DoExchange? {
      ApiStepSafe(c, start, p, step);
    } else if step.DoPoll? || step.DoSend? {
      FrameStepSafe(c, start, p, step);
    } else {
      RetireSafe(c, start, p, step.g);
    }
  }

  lemma {:induction false} RunSafe(c: Setup, start: string, p: Pipe, steps: seq<Step>)
    requires Fresh(c, start, p)
    ensures Safe(c, start, Steps(c, p, steps))
  {
    if steps == [] {
      BooksIntent(start, "");
    } else {
      RunSafe(c, start, p, steps[..|steps| - 1]);
      NextSafe(c, start, Steps(c, p, steps[..|steps| - 1]), steps[|steps| - 1]);
    }
  }

  // ---------------------------------------------------------------- what a derived row means in the ledger

  /** The ledger file is accepted and its latest word on the resource is this one. */
  predicate OnBooks(c: Setup, ledger: string, resource: L.Resource, confirmed: bool) {
    var s := F.Accepted(c.w, ledger);
    var k := (c.reservation.tenantId, c.reservation.runNonce);
    && s.Some? && k in s.value.reservations && resource.id in s.value.reservations[k].resources
    && s.value.reservations[k].resources[resource.id] == L.Entry(resource, c.operation, confirmed)
  }

  lemma {:induction false} StepOnBooks(w: Primitives, s: L.Ledger, row: L.Row)
    requires L.Step(w, s, row).Some? && row.operation.Some? && (row.state == L.CREATE_INTENT || row.state == L.CREATED)
    ensures row.resource.Some?
    ensures var k := L.KeyOf(row);
            var next := L.Step(w, s, row).value;
            && k in next.reservations && row.resource.value.id in next.reservations[k].resources
            && next.reservations[k].resources[row.resource.value.id] == L.Entry(row.resource.value, row.operation.value, row.state == L.CREATED)
  {
  }

  lemma {:induction false} DecidedRow(w: Primitives, raw: string, b: L.Binding, state: L.RowState, operation: Option<Cases.Case>, now: string,
                                      cleanup: Option<L.Receipt>, resource: Option<L.Resource>)
    requires F.Decide(w, raw, b, state, operation, now, cleanup, resource).Some?
    ensures var row := F.Decide(w, raw, b, state, operation, now, cleanup, resource).value;
            && row.binding == b && row.state == state && row.operation == operation && row.resource == resource
            && F.Accepted(w, raw).Some? && F.Accepted(w, raw + Line(row)).Some?
            && L.Step(w, F.Accepted(w, raw).value, row) == F.Accepted(w, raw + Line(row))
  {
    var row := F.Decide(w, raw, b, state, operation, now, cleanup, resource).value;
    F.AppendAccepted(w, raw, row);
  }

  lemma {:induction false} RowOnBooks(c: Setup, ledger: string, state: L.RowState, now: string, action: P.Action, observed: Option<Json>, row: L.Row)
    requires RowFor(c, ledger, state, now, action, observed) == Some(row) && (state == L.CREATE_INTENT || state == L.CREATED)
    ensures RecordFor(c, action, observed).Some?
    ensures OnBooks(c, ledger + Line(row), RecordFor(c, action, observed).value, state == L.CREATED)
  {
    var resource := RecordFor(c, action, observed);
    DecidedRow(c.w, ledger, c.reservation, state, Some(c.operation), now, None, resource);
    StepOnBooks(c.w, F.Accepted(c.w, ledger).value, row);
  }

  // ---------------------------------------------------------------- theorems

  /** The request of an attempt is the one its intent stands for, and that exact intent is durable, unconfirmed, and still stored. */
  predicate AfterDurableIntent(c: Setup, q: Pipe, e: Effect) {
    && e.ApiWrite? && q.intent.Some? && e.ledger <= q.stored
    && var action := q.intent.value.action;
       && RequestFor(c, action) == Some(e.request) && c.w.hash(e.request.body) == action.manifestDigest
       && RecordFor(c, action, None).Some? && OnBooks(c, e.ledger, RecordFor(c, action, None).value, false)
  }

  /** The frame of a result carries the response of the exchange, and the identity in it is durable, confirmed, and still stored. */
  predicate AfterDurableCreated(c: Setup, q: Pipe, e: Effect) {
    && e.ResultSend? && q.intent.Some? && q.exchange.Some? && e.ledger <= q.stored
    && var action, observed := q.intent.value.action, ObservedIn(q.exchange.value);
       && e.frame.payload == T.ResourceResult(action.actionId, T.CREATED, q.exchange)
       && RecordFor(c, action, observed).Some? && OnBooks(c, e.ledger, RecordFor(c, action, observed).value, true)
  }

  lemma {:induction false} IntentStored(start: string, q: Pipe)
    requires q.intent.Some? && q.ledgerRaw == Books(start, q) && q.ledgerRaw <= q.stored
    ensures start + Line(q.intent.value.row) <= q.stored
  {
  }

  lemma {:induction false} CreatedStored(start: string, q: Pipe)
    requires q.intent.Some? && q.created.Some? && q.created.value.before == start + Line(q.intent.value.row)
    requires q.ledgerRaw == Books(start, q) && q.ledgerRaw <= q.stored
    ensures q.created.value.before + Line(q.created.value.row) <= q.stored
  {
  }

  lemma {:induction false} WriteMeans(c: Setup, start: string, q: Pipe, e: Effect)
    requires q.ledgerRaw == Books(start, q) && q.ledgerRaw <= q.stored && IntentExact(c, start, q) && ApiWriteExact(c, start, q, e)
    ensures AfterDurableIntent(c, q, e)
  {
    IntentStored(start, q);
    RowOnBooks(c, start, L.CREATE_INTENT, q.intent.value.row.observedAt, q.intent.value.action, None, q.intent.value.row);
  }

  lemma {:induction false} SendMeans(c: Setup, start: string, q: Pipe, e: Effect)
    requires q.ledgerRaw == Books(start, q) && q.ledgerRaw <= q.stored && CreatedExact(c, start, q) && ResultExact(start, q, e)
    ensures AfterDurableCreated(c, q, e)
  {
    CreatedStored(start, q);
    RowOnBooks(c, q.created.value.before, L.CREATED, q.created.value.row.observedAt, q.intent.value.action,
               ObservedIn(q.exchange.value), q.created.value.row);
  }

  /**
    Write-ahead: in every run there is at most one API request and one result, in that order; the request
    only after its exact intent is durable, the result only after the confirmed identity is.
   */
  lemma {:induction false} EffectsFollowTheLedger(c: Setup, start: string, p: Pipe, steps: seq<Step>)
    requires Fresh(c, start, p)
    ensures var q := Steps(c, p, steps);
            && |q.effects| <= 2
            && (|q.effects| >= 1 ==> AfterDurableIntent(c, q, q.effects[0]))
            && (|q.effects| == 2 ==> AfterDurableCreated(c, q, q.effects[1]))
  {
    RunSafe(c, start, p, steps);
    var q := Steps(c, p, steps);
    if |q.effects| >= 1 {
      WriteMeans(c, start, q, q.effects[0]);
    }
    if |q.effects| == 2 {
      SendMeans(c, start, q, q.effects[1]);
    }
  }

  /** Between successful steps the retained pin is the stored ledger, and that ledger is accepted. */
  lemma {:induction false} PinIsTheLedger(c: Setup, start: string, p: Pipe, steps: seq<Step>)
    requires Fresh(c, start, p) && !Steps(c, p, steps).failed
    ensures Steps(c, p, steps).ledgerRaw == Steps(c, p, steps).stored
    ensures F.Accepted(c.w, Steps(c, p, steps).stored).Some?
    ensures Steps(c, p, steps).transcriptRaw == H.SnapshotOf(c.w, Steps(c, p, steps).transcript)
  {
    RunSafe(c, start, p, steps);
    BooksAccepted(c, start, Steps(c, p, steps));
  }

  lemma {:induction false} BooksAccepted(c: Setup, start: string, q: Pipe)
    requires Safe(c, start, q) && F.Accepted(c.w, start).Some?
    ensures F.Accepted(c.w, q.ledgerRaw).Some?
  {
    if q.created.Some? {
      RowOnBooks(c, q.created.value.before, L.CREATED, q.created.value.row.observedAt, q.intent.value.action,
                 ObservedIn(q.exchange.value), q.created.value.row);
    } else if q.intent.Some? {
      RowOnBooks(c, start, L.CREATE_INTENT, q.intent.value.row.observedAt, q.intent.value.action, None, q.intent.value.row);
      BooksIntent(start, Line(q.intent.value.row));
    } else {
      BooksIntent(start, "");
    }
  }

  /** What a failed pipeline still shows of the world. */
  predicate SameWorld(p: Pipe, q: Pipe) {
    && q.failed && q.stored == p.stored && q.effects == p.effects && q.transcript == p.transcript && q.ledgerRaw == p.ledgerRaw
    && q.intent == p.intent && q.exchange == p.exchange && q.created == p.created && q.result == p.result && q.retired == p.retired
    && (p.logPoisoned ==> q.logPoisoned)
  }

  lemma {:induction false} FailedStep(c: Setup, p: Pipe, step: Step)
    requires p.failed
    ensures SameWorld(p, Next(c, p, step))
  {
  }

  /** After any failure no later step succeeds or changes anything, and nothing is rolled back. */
  lemma {:induction false} FailureIsFinal(c: Setup, p: Pipe, steps: seq<Step>)
    requires p.failed
    ensures SameWorld(p, Steps(c, p, steps))
  {
    if steps != [] {
      FailureIsFinal(c, p, steps[..|steps| - 1]);
      FailedStep(c, Steps(c, p, steps[..|steps| - 1]), steps[|steps| - 1]);
    }
  }

  predicate Keeps(p: Pipe, q: Pipe) {
    && p.stored <= q.stored && p.effects <= q.effects && p.transcript.sequence <= q.transcript.sequence && (p.failed ==> q.failed)
  }

  lemma {:induction false} WritesKeep(p: Pipe, row: L.Row, g: Guards, fault: Fault)
    requires !p.failed
    ensures p.transcript.pending.Some? ==> Keeps(p, WriteIntent(p, row, g, fault))
    ensures Keeps(p, WriteCreated(p, row, g, fault))
  {
    LeftGrows(p.stored, Line(row), fault);
  }

  lemma {:induction false} IntentKeeps(c: Setup, p: Pipe, now: string, g: Guards, fault: Fault)
    ensures Keeps(p, RecordIntent(c, p, now, g, fault))
  {
    var row := IntentRow(c, p, now, g);
    if row.Some? {
      WritesKeep(p, row.value, g, fault);
    }
  }

  lemma {:induction false} CreatedKeeps(c: Setup, p: Pipe, now: string, g: Guards, fault: Fault)
    ensures Keeps(p, RecordCreated(c, p, now, g, fault))
  {
    var row := CreatedRow(c, p, now, g);
    if row.Some? {
      WritesKeep(p, row.value, g, fault);
    }
  }

  lemma {:induction false} ExchangeKeeps(c: Setup, p: Pipe, g: Guards, response: Option<string>)
    ensures Keeps(p, Exchange(c, p, g, response))
  {
    ExchangeEndsSo(c, p, g, response);
  }

  lemma {:induction false} SendKeeps(c: Setup, p: Pipe, g: Guards)
    ensures Keeps(p, SendResult(c, p, g))
  {
  }

  lemma {:induction false} TranscriptKeeps(c: Setup, p: Pipe, frame: Option<T.Frame>, g: Guards)
    ensures Keeps(p, Poll(c, p, frame, g)) && Keeps(p, Retire(c, p, g)) && Keeps(p, PrepareApi(c, p, g))
  {
  }

  /** No step takes back a stored byte, an effect or an accepted frame. */
  lemma {:induction false} NothingRolledBack(c: Setup, p: Pipe, step: Step)
    ensures Keeps(p, Next(c, p, step))
  {
    match step
    case DoPoll(frame, g) => TranscriptKeeps(c, p, frame, g);
    case DoIntent(now, g, fault) => IntentKeeps(c, p, now, g, fault);
    case DoPrepare(g) => TranscriptKeeps(c, p, None, g);
    case DoExchange(g, response) => ExchangeKeeps(c, p, g, response);
    case DoCreated(now, g, fault) => CreatedKeeps(c, p, now, g, fault);
    case DoSend(g) => SendKeeps(c, p, g);
    case DoRetire(g) => TranscriptKeeps(c, p, None, g);
  }

  lemma {:induction false} RetireSucceeds(c: Setup, q: Pipe)
    requires Intact(c, q) && !q.retired && q.result.Some? && ActionHeld(q) && !AdvanceMismatch(c, q)
    ensures Retire(c, q, Guards(true, true, true)).retired && !Retire(c, q, Guards(true, true, true)).failed
  {
  }

  /** Once a result was delivered, the transcript takes its frame exactly as the detached copy did: the mismatch check cannot fire. */
  lemma {:induction false} AdvanceMismatchNeverFires(c: Setup, start: string, p: Pipe, steps: seq<Step>)
    requires Fresh(c, start, p) && !Steps(c, p, steps).failed
    requires Steps(c, p, steps).result.Some? && !Steps(c, p, steps).retired
    ensures !AdvanceMismatch(c, Steps(c, p, steps))
    ensures Steps(c, p, steps).api == Ready ==>
              var q := Retire(c, Steps(c, p, steps), Guards(true, true, true)); q.retired && !q.failed
  {
    RunSafe(c, start, p, steps);
    var q := Steps(c, p, steps);
    if q.api == Ready {
      DeliveredHeld(c, start, q);
      RetireSucceeds(c, q);
    }
  }

  lemma {:induction false} DeliveredHeld(c: Setup, start: string, q: Pipe)
    requires Safe(c, start, q) && !q.failed && q.result.Some? && !q.retired && q.api == Ready
    ensures Intact(c, q) && ActionHeld(q) && !AdvanceMismatch(c, q)
  {
  }

  lemma {:induction false} NothingAfterRetirement(c: Setup, q: Pipe, more: Step)
    requires q.retired && q.intent.Some? && q.exchange.Some? && q.created.Some? && q.result.Some? && q.api == Closed
    ensures Next(c, q, more).failed
  {
  }

  /** A retired CREATE has made its one request and sent its one result, and no further step succeeds. */
  lemma {:induction false} RetiredIsComplete(c: Setup, start: string, p: Pipe, steps: seq<Step>, more: Step)
    requires Fresh(c, start, p) && Steps(c, p, steps).retired && !Steps(c, p, steps).failed
    ensures |Steps(c, p, steps).effects| == 2
    ensures Next(c, Steps(c, p, steps), more).failed
  {
    RunSafe(c, start, p, steps);
    NothingAfterRetirement(c, Steps(c, p, steps), more);
  }
}
