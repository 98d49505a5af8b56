/**
  The server side of one CREATE (live_proxy_server.py): intent, API connection, exchange, confirmation,
  result and retirement, as a write-ahead protocol over the admission ledger and the broker transcript.
  Every guard and every I/O of a step may fail; those outcomes are the step's inputs.
 */
module CreatePipeline {
  import opened Prelude
  import opened CanonicalJson
  import opened Digests
  import opened Cases
  import opened Budget
  import opened DurableFile
  import T = BrokerTranscript
  import H = BrokerHistory
  import L = AdmissionLedger
  import F = AdmissionLog
  import P = Profiles

  // ---------------------------------------------------------------- what one step is given

  /** Retained, immutable inputs of the run. */
  datatype Setup = Setup(
    w: Primitives, x: T.Setting, reservation: L.Binding, operation: Case, profile: Json, broker: P.BrokerBinding)

  /** Whether the checks before the effect, right after it, and at the end of the step pass. */
  datatype Guards = Guards(before: bool, confirmed: bool, last: bool)

  datatype Request = Request(line: string, body: string)

  /** The effects outside this process, each with the ledger file as it was stored at that moment. */
  datatype Effect = ApiWrite(ledger: string, request: Request) | ResultSend(ledger: string, frame: T.Frame)

  datatype Api = Absent | Ready | Closed

  datatype Intent = Intent(action: P.Action, row: L.Row, before: string)

  datatype Created = Created(row: L.Row, before: string)

  datatype Delivery = Delivery(frame: T.Frame, after: H.Snapshot)

  /** `exchange` holds the response of a completed exchange. */
  datatype Pipe = Pipe(
    stored: string, logPoisoned: bool, transcript: T.Transcript, failed: bool,
    ledgerRaw: string, transcriptRaw: H.Snapshot,
    intent: Option<Intent>, api: Api, exchange: Option<string>, created: Option<Created>,
    result: Option<Delivery>, retired: bool, effects: seq<Effect>)

  function Line(r: L.Row): string {
    F.RowText(r) + "\n"
  }

  // ---------------------------------------------------------------- checks

  /** The state every guard compares: the stored file with the pin, the transcript with its snapshot, the log unpoisoned. */
  predicate Intact(c: Setup, p: Pipe) {
    && !p.failed && p.stored == p.ledgerRaw && !p.logPoisoned
    && H.SnapshotOf(c.w, p.transcript) == p.transcriptRaw
  }

  predicate PendingIs(p: Pipe, action: P.Action) {
    p.transcript.pending == Some(action)
  }

  /** A refused step closes the connection for good; `poison` says whether a write of its owners is now in doubt. */
  function Refuse(p: Pipe, poison: bool): Pipe {
    p.(failed := true, api := Closed, logPoisoned := p.logPoisoned || poison)
  }

  // ---------------------------------------------------------------- records and messages

  function PluralOf(kind: string): string {
    if kind == "Pod" then "pods" else if kind == "ConfigMap" then "configmaps" else "services"
  }

  /** Exactly one profile row carries the digest. */
  predicate OneRow(rows: seq<Json>, digest: string) {
    exists i :: 0 <= i < |rows| && P.DigestOf(rows[i]) == digest
                && forall j :: 0 <= j < |rows| && P.DigestOf(rows[j]) == digest ==> j == i
  }

  /** `_request`: the one HTTP request this action stands for. */
  function RequestFor(c: Setup, action: P.Action): Option<Request> {
    var rows := P.Resources(c.profile);
    if action.verb != P.CREATE || !OneRow(rows, action.manifestDigest) then None
    else
      match P.RowFor(rows, action.manifestDigest)
      case None => None
      case Some(row) =>
        var manifest := P.ManifestOf(row);
        var body := Encode(manifest);
        if P.NamespaceOf(manifest) != P.Namespace(c.profile) || !L.IsName(P.NamespaceOf(manifest)) then None
        else if |body| > P.MAX_MANIFEST || c.w.hash(body) != action.manifestDigest then None
        else
          Some(Request("POST /api/v1/namespaces/" + P.NamespaceOf(manifest) + "/" + PluralOf(P.KindText(manifest)) + " HTTP/1.1", body))
  }

  /** The resource row for the action, as an intent or with the identity the API returned. */
  function RecordFor(c: Setup, action: P.Action, observed: Option<Json>): Option<L.Resource> {
    P.CreateRecord(c.w, c.reservation, c.operation, c.profile, c.broker, action, observed)
  }

  /** `document(raw, 16384)`. */
  function ObservedIn(raw: string): Option<Json> {
    if 0 < |raw| <= P.MAX_MANIFEST && Document(raw).Some? && WithinBudget(AdmissionRules(P.MAX_MANIFEST), Document(raw).value)
    then Document(raw) else None
  }

  /** The exact row to append to the ledger, if both the file and its extension are accepted. */
  function RowFor(c: Setup, ledger: string, state: L.RowState, now: string, action: P.Action, observed: Option<Json>): Option<L.Row> {
    if observed.None? != (state == L.CREATE_INTENT) then None
    else
      match RecordFor(c, action, observed)
      case None => None
      case Some(resource) => F.Decide(c.w, ledger, c.reservation, state, Some(c.operation), now, None, Some(resource))
  }

  /** A row to append is the ledger's own decision on the derived resource. */
  lemma {:induction false} RowForMeans(c: Setup, ledger: string, state: L.RowState, now: string, action: P.Action, observed: Option<Json>)
    requires RowFor(c, ledger, state, now, action, observed).Some?
    ensures RecordFor(c, action, observed).Some? && (observed.None? <==> state == L.CREATE_INTENT)
    ensures RowFor(c, ledger, state, now, action, observed)
            == F.Decide(c.w, ledger, c.reservation, state, Some(c.operation), now, None, RecordFor(c, action, observed))
  {
  }

  function ResultFrame(c: Setup, t: T.Transcript, action: P.Action, response: string): T.Frame {
    T.Frame(c.x.dispatch, if t.execution.Some? then t.execution.value else "", t.sequence + 1, t.previous,
            T.ResourceResult(action.actionId, T.CREATED, Some(response)))
  }

  // ---------------------------------------------------------------- the steps

  /** `poll`: one inbound frame, or nothing, while no action is pending. */
  function Poll(c: Setup, p: Pipe, frame: Option<T.Frame>, g: Guards): Pipe {
    if !Intact(c, p) || !g.before || p.retired then Refuse(p, false)
    else if p.transcript.pending.Some? || p.transcript.cleanup.Some? || p.transcript.terminal.Some? then Refuse(p, false)
    else if frame.None? then (if g.last then p else Refuse(p, false))
    else if !(frame.value.payload.ResourceAction? || frame.value.payload.ReceiptChunk?) then Refuse(p, false)
    else
      match T.Accept(c.w, c.x, p.transcript, frame.value, T.BROKER)
      case None => Refuse(p, false)
      case Some(t) =>
        var advanced := p.(transcript := t, transcriptRaw := H.SnapshotOf(c.w, t));
        if g.last then advanced else Refuse(advanced, false)
  }

  /** What `record_create_intent` is about to write, if its checks pass. */
  function IntentRow(c: Setup, p: Pipe, now: string, g: Guards): Option<L.Row> {
    if p.intent.Some? || !Intact(c, p) || !g.before || p.transcript.pending.None? || p.transcript.pending.value.verb != P.CREATE then None
    else RowFor(c, p.ledgerRaw, L.CREATE_INTENT, now, p.transcript.pending.value, None)
  }

  /** The write, the readback, and only then the advance of the pin. */
  function WriteIntent(p: Pipe, row: L.Row, g: Guards, fault: Fault): Pipe
    requires p.transcript.pending.Some?
  {
    var written := p.(stored := Left(p.stored, Line(row), fault));
    if !fault.NoFault? || !g.confirmed then Refuse(written, true)
    else
      var advanced := written.(ledgerRaw := written.stored, intent := Some(Intent(p.transcript.pending.value, row, p.ledgerRaw)));
      if g.last then advanced else Refuse(advanced, true)
  }

  /** `record_create_intent`. */
  function RecordIntent(c: Setup, p: Pipe, now: string, g: Guards, fault: Fault): Pipe {
    match IntentRow(c, p, now, g)
    case None => Refuse(p, p.intent.Some?)
    case Some(row) => WriteIntent(p, row, g, fault)
  }

  /** `prepare_api`: the authenticated connection for the pending action; nothing is sent on it. */
  function PrepareApi(c: Setup, p: Pipe, g: Guards): Pipe {
    if !Intact(c, p) || !g.before || p.api != Absent || p.transcript.pending.None? || !g.last then Refuse(p, false)
    else p.(api := Ready)
  }

  /** The intent whose action is still the pending one. */
  predicate ActionHeld(p: Pipe) {
    p.intent.Some? && p.api == Ready && PendingIs(p, p.intent.value.action)
  }

  /** What `exchange_api_create` is about to send, if its checks pass. */
  function RequestToSend(c: Setup, p: Pipe, g: Guards): Option<Request> {
    if !Intact(c, p) || !g.before || p.exchange.Some? || !ActionHeld(p) then None else RequestFor(c, p.intent.value.action)
  }

  predicate Answers(c: Setup, p: Pipe, response: Option<string>)
    requires p.intent.Some?
  {
    && response.Some? && ObservedIn(response.value).Some?
    && RecordFor(c, p.intent.value.action, ObservedIn(response.value)).Some?
  }

  /** `exchange_api_create`: one request and its response; an attempt is never repeated. */
  function Exchange(c: Setup, p: Pipe, g: Guards, response: Option<string>): Pipe {
    match RequestToSend(c, p, g)
    case None => Refuse(p, p.intent.Some?)
    case Some(request) =>
      var attempted := p.(effects := p.effects + [ApiWrite(p.stored, request)]);
      if g.confirmed && Answers(c, p, response) && g.last then attempted.(exchange := response) else Refuse(attempted, true)
  }

  /** What `record_api_created` is about to write, if its checks pass. */
  function CreatedRow(c: Setup, p: Pipe, now: string, g: Guards): Option<L.Row> {
    if p.created.Some? || !Intact(c, p) || !g.before || p.exchange.None? || !ActionHeld(p) then None
    else RowFor(c, p.ledgerRaw, L.CREATED, now, p.intent.value.action, ObservedIn(p.exchange.value))
  }

  lemma {:induction false} IntentRowMeans(c: Setup, p: Pipe, now: string, g: Guards)
    requires IntentRow(c, p, now, g).Some?
    ensures Intact(c, p) && p.intent.None? && p.transcript.pending.Some? && p.transcript.pending.value.verb == P.CREATE
    ensures IntentRow(c, p, now, g) == RowFor(c, p.ledgerRaw, L.CREATE_INTENT, now, p.transcript.pending.value, None)
  {
  }

  lemma {:induction false} CreatedRowMeans(c: Setup, p: Pipe, now: string, g: Guards)
    requires CreatedRow(c, p, now, g).Some?
    ensures Intact(c, p) && p.created.None? && p.intent.Some? && p.exchange.Some?
    ensures CreatedRow(c, p, now, g) == RowFor(c, p.ledgerRaw, L.CREATED, now, p.intent.value.action, ObservedIn(p.exchange.value))
  {
  }

  function WriteCreated(p: Pipe, row: L.Row, g: Guards, fault: Fault): Pipe {
    var written := p.(stored := Left(p.stored, Line(row), fault));
    if !fault.NoFault? || !g.confirmed then Refuse(written, true)
    else
      var advanced := written.(ledgerRaw := written.stored, created := Some(Created(row, p.ledgerRaw)));
      if g.last then advanced else Refuse(advanced, true)
  }

  /** `record_api_created`: the returned identity, durably. */
  function RecordCreated(c: Setup, p: Pipe, now: string, g: Guards, fault: Fault): Pipe {
    match CreatedRow(c, p, now, g)
    case None => Refuse(p, p.intent.Some?)
    case Some(row) => WriteCreated(p, row, g, fault)
  }

  /** `send_create_result`: the RESOURCE_RESULT frame, computed on a detached copy of the transcript. */
  function SendResult(c: Setup, p: Pipe, g: Guards): Pipe {
    if p.result.Some? || !Intact(c, p) || !g.before || p.created.None? || p.exchange.None? || !ActionHeld(p) then
      Refuse(p, p.created.Some? && (p.result.Some? || !p.failed))
    else
      var detached := H.Rebuilt(p.transcriptRaw);
      if H.SnapshotOf(c.w, detached) != p.transcriptRaw then Refuse(p, true)
      else
        var frame := ResultFrame(c, detached, p.intent.value.action, p.exchange.value);
        match T.Accept(c.w, c.x, detached, frame, T.SERVER)
        case None => Refuse(p, true)
        case Some(t) =>
          var attempted := p.(effects := p.effects + [ResultSend(p.stored, frame)]);
          if !g.confirmed || !g.last then Refuse(attempted, true)
          else attempted.(result := Some(Delivery(frame, H.SnapshotOf(c.w, t))))
  }

  /** Why a retirement stopped, when the reason is the transcript itself. */
  predicate AdvanceMismatch(c: Setup, p: Pipe)
    requires p.result.Some?
  {
    match T.Accept(c.w, c.x, p.transcript, p.result.value.frame, T.SERVER)
    case None => true
    case Some(t) => H.SnapshotOf(c.w, t) != p.result.value.after
  }

  predicate MayRetire(c: Setup, p: Pipe, g: Guards) {
    !p.retired && Intact(c, p) && g.before && p.result.Some? && ActionHeld(p)
  }

  /** `retire_create_result`: the connection is closed, then the original transcript takes the frame that was sent. */
  function Retire(c: Setup, p: Pipe, g: Guards): Pipe {
    if !MayRetire(c, p, g) then Refuse(p, p.result.Some? && (p.retired || !p.failed))
    else if !g.confirmed || AdvanceMismatch(c, p) then Refuse(p, true)
    else
      var t := T.Accept(c.w, c.x, p.transcript, p.result.value.frame, T.SERVER).value;
      var advanced := p.(api := Closed, transcript := t, transcriptRaw := p.result.value.after, retired := true);
      if g.last then advanced else Refuse(advanced, true)
  }
}
