/** Which request an intent stands for, and the CREATE that nothing disturbs. */
module CreateRules {
  import opened Prelude
  import opened CanonicalJson
  import opened Digests
  import opened DurableFile
  import opened CreatePipeline
  import opened CreateRuns
  import T = BrokerTranscript
  import H = BrokerHistory
  import L = AdmissionLedger
  import F = AdmissionLog
  import P = Profiles

  // ---------------------------------------------------------------- the request

  /** One of the profile's manifests, with the kind, namespace, name and digest of the resource. */
  ghost predicate Describes(c: Setup, resource: L.Resource, manifest: Json) {
    && (exists row :: row in P.Resources(c.profile) && P.Get(row, "manifest") == manifest)
    && P.Get(manifest, "kind") == Str(match resource.id.kind case Pod => "Pod" case ConfigMap => "ConfigMap" case Service => "Service")
    && P.Get(P.Get(manifest, "metadata"), "namespace") == Str(resource.id.namespace)
    && P.Get(P.Get(manifest, "metadata"), "name") == Str(resource.id.name)
    && c.w.hash(Encode(manifest)) == resource.manifestDigest
  }

  /** The request line that creates an object. */
  predicate Posts(id: L.Identity, line: string) {
    line == "POST /api/v1/namespaces/" + id.namespace + PathEnd(id.kind)
  }

  /** Where the objects of a kind are created. */
  function PathEnd(kind: L.Kind): string {
    match kind
    case Pod => "/pods HTTP/1.1"
    case ConfigMap => "/configmaps HTTP/1.1"
    case Service => "/services HTTP/1.1"
  }

  /** The profile row an action names. */
  predicate Names(c: Setup, action: P.Action, row: Json) {
    && P.RowFor(P.Resources(c.profile), action.manifestDigest) == Some(row)
    && row in P.Resources(c.profile) && P.DigestOf(row) == action.manifestDigest
    && P.RowValid(c.w, c.profile, row) && P.NamesDistinct(P.Resources(c.profile))
  }

  lemma {:induction false} RecordIsOfRow(c: Setup, action: P.Action) returns (row: Json)
    requires RecordFor(c, action, None).Some?
    ensures Names(c, action, row) && action.verb == P.CREATE && 1 <= action.actionId <= 256
    ensures var manifest := P.ManifestOf(row);
            RecordFor(c, action, None).value ==
            L.Resource(action.actionId, L.Identity(P.KindOf(P.KindText(manifest)), P.NamespaceOf(manifest), P.NameOf(manifest)),
                       action.manifestDigest, None, None)
  {
    row := P.RowFor(P.Resources(c.profile), action.manifestDigest).value;
    P.RowForFinds(P.Resources(c.profile), action.manifestDigest);
    ValidRows(c);
  }

  lemma {:induction false} ValidRows(c: Setup)
    requires P.ValidProfile(c.w, c.profile)
    ensures forall row :: row in P.Resources(c.profile) ==> P.RowValid(c.w, c.profile, row)
  {
  }

  lemma {:induction false} RowDescribes(c: Setup, action: P.Action, row: Json, resource: L.Resource)
    requires Names(c, action, row) && resource.manifestDigest == action.manifestDigest
    requires var manifest := P.ManifestOf(row);
             resource.id == L.Identity(P.KindOf(P.KindText(manifest)), P.NamespaceOf(manifest), P.NameOf(manifest))
    ensures Describes(c, resource, P.ManifestOf(row))
  {
    assert P.ManifestShape(P.ManifestOf(row));
  }

  lemma {:induction false} PathEnds(kind: string)
    requires P.IsKind(kind)
    ensures "/" + PluralOf(kind) + " HTTP/1.1" == PathEnd(P.KindOf(kind))
  {
    if kind == "Pod" {
      assert P.KindOf(kind) == L.Pod;
      Joined("/", "pods", " HTTP/1.1", "/pods HTTP/1.1");
    } else if kind == "ConfigMap" {
      assert P.KindOf(kind) == L.ConfigMap;
      Joined("/", "configmaps", " HTTP/1.1", "/configmaps HTTP/1.1");
    } else {
      assert P.KindOf(kind) == L.Service;
      Joined("/", "services", " HTTP/1.1", "/services HTTP/1.1");
    }
  }

  lemma {:induction false} Joined(a: string, b: string, c: string, whole: string)
    requires |whole| == |a| + |b| + |c| && whole[..|a|] == a && whole[|a|..][..|b|] == b && whole[|a|..][|b|..] == c
    ensures a + b + c == whole
  {
  }

  lemma {:induction false} Pieces(a: string, b: string, c: string, d: string, e: string)
    ensures a + b + c + d + e == a + b + (c + d + e)
  {
  }

  lemma {:induction false} RequestUnfolds(c: Setup, action: P.Action, row: Json)
    requires Names(c, action, row) && RequestFor(c, action).Some?
    ensures var manifest, request := P.ManifestOf(row), RequestFor(c, action).value;
            && request.body == Encode(manifest)
            && request.line == "POST /api/v1/namespaces/" + P.NamespaceOf(manifest) + "/" + PluralOf(P.KindText(manifest)) + " HTTP/1.1"
  {
  }

  lemma {:induction false} LinePosts(kind: string, namespace: string, name: string)
    requires P.IsKind(kind)
    ensures Posts(L.Identity(P.KindOf(kind), namespace, name), "POST /api/v1/namespaces/" + namespace + "/" + PluralOf(kind) + " HTTP/1.1")
  {
    Pieces("POST /api/v1/namespaces/", namespace, "/", PluralOf(kind), " HTTP/1.1");
    PathEnds(kind);
  }

  lemma {:induction false} RequestPosts(c: Setup, action: P.Action, row: Json, id: L.Identity)
    requires Names(c, action, row) && RequestFor(c, action).Some?
    requires var manifest := P.ManifestOf(row);
             id == L.Identity(P.KindOf(P.KindText(manifest)), P.NamespaceOf(manifest), P.NameOf(manifest))
    ensures Posts(id, RequestFor(c, action).value.line) && RequestFor(c, action).value.body == Encode(P.ManifestOf(row))
  {
    RequestUnfolds(c, action, row);
    assert P.ManifestShape(P.ManifestOf(row));
    LinePosts(P.KindText(P.ManifestOf(row)), id.namespace, id.name);
  }

  lemma {:induction false} OnlyTheFirst(c: Setup, q: Pipe, i: nat)
    requires |q.effects| == 2 ==> q.effects[1].ResultSend?
    requires i < |q.effects| <= 2 && q.effects[i].ApiWrite?
    ensures i == 0
  {
  }

  lemma {:induction false} SecondIsResult(c: Setup, q: Pipe, e: Effect)
    requires AfterDurableCreated(c, q, e)
    ensures e.ResultSend?
  {
  }

  lemma {:induction false} WritesFollowIntents(c: Setup, start: string, p: Pipe, steps: seq<Step>, i: nat)
    requires Fresh(c, start, p) && i < |Steps(c, p, steps).effects| && Steps(c, p, steps).effects[i].ApiWrite?
    ensures AfterDurableIntent(c, Steps(c, p, steps), Steps(c, p, steps).effects[i])
  {
    EffectsFollowTheLedger(c, start, p, steps);
    var q := Steps(c, p, steps);
    if |q.effects| == 2 {
      SecondIsResult(c, q, q.effects[1]);
    }
    OnlyTheFirst(c, q, i);
  }

  /**
    Whatever fails in whatever order: a request sent to the API creates, at the path of its kind in its namespace,
    the manifest of the profile whose kind, namespace, name and digest stand in a durable, unconfirmed intent.
   */
  lemma {:induction false} RequestNamesItsIntent(c: Setup, start: string, p: Pipe, steps: seq<Step>, i: nat)
    returns (resource: L.Resource, manifest: Json)
    requires Fresh(c, start, p) && i < |Steps(c, p, steps).effects| && Steps(c, p, steps).effects[i].ApiWrite?
    ensures var e := Steps(c, p, steps).effects[i];
            && OnBooks(c, e.ledger, resource, false) && Describes(c, resource, manifest)
            && Posts(resource.id, e.request.line) && e.request.body == Encode(manifest)
  {
    WritesFollowIntents(c, start, p, steps, i);
    var action := Steps(c, p, steps).intent.value.action;
    var row := RecordIsOfRow(c, action);
    resource, manifest := RecordFor(c, action, None).value, P.ManifestOf(row);
    RowDescribes(c, action, row, resource);
    RequestPosts(c, action, row, resource.id);
  }

  // ---------------------------------------------------------------- the request exists

  predicate OnlyRow(c: Setup, digest: string) {
    var rows := P.Resources(c.profile);
    forall i, j :: 0 <= i < |rows| && 0 <= j < |rows| && P.DigestOf(rows[i]) == digest == P.DigestOf(rows[j]) ==> i == j
  }

  /** An action that may be recorded has its request exactly when no two rows of the profile carry its digest. */
  lemma {:induction false} RequestExactly(c: Setup, action: P.Action)
    requires RecordFor(c, action, None).Some?
    ensures RequestFor(c, action).Some? <==> OnlyRow(c, action.manifestDigest)
  {
    var row := RecordIsOfRow(c, action);
    var rows := P.Resources(c.profile);
    var k :| 0 <= k < |rows| && rows[k] == row;
    OneRowExactly(c, action.manifestDigest, k);
    RowPasses(c, action, row);
  }

  lemma {:induction false} OneRowExactly(c: Setup, digest: string, k: nat)
    requires k < |P.Resources(c.profile)| && P.DigestOf(P.Resources(c.profile)[k]) == digest
    ensures OneRow(P.Resources(c.profile), digest) <==> OnlyRow(c, digest)
  {
  }

  lemma {:induction false} RowPasses(c: Setup, action: P.Action, row: Json)
    requires Names(c, action, row) && action.verb == P.CREATE
    ensures RequestFor(c, action).Some? <==> OneRow(P.Resources(c.profile), action.manifestDigest)
  {
    assert P.ManifestShape(P.ManifestOf(row)) && P.InScope(c.profile, P.ManifestOf(row));
  }

  /** The canonical texts of the profile's manifests. */
  function ManifestTexts(c: Setup): set<string> {
    set row | row in P.Resources(c.profile) :: Encode(P.ManifestOf(row))
  }

  /** Two rows share a digest only if two manifests collide. */
  lemma {:induction false} DigestsDiffer(c: Setup, i: nat, j: nat)
    requires P.ValidProfile(c.w, c.profile) && c.w.CollisionFree(ManifestTexts(c))
    requires i < |P.Resources(c.profile)| && j < |P.Resources(c.profile)|
    requires P.DigestOf(P.Resources(c.profile)[i]) == P.DigestOf(P.Resources(c.profile)[j])
    ensures i == j
  {
    var rows := P.Resources(c.profile);
    var a, b := P.ManifestOf(rows[i]), P.ManifestOf(rows[j]);
    assert P.RowValid(c.w, c.profile, rows[i]) && P.RowValid(c.w, c.profile, rows[j]);
    assert Encode(a) in ManifestTexts(c) && Encode(b) in ManifestTexts(c);
    EncodeInjective(a, b);
    assert P.LogicalName(rows[i]) == P.LogicalName(rows[j]);
  }

  /** So without a collision among the profile's manifests every recordable action has its request. */
  lemma {:induction false} RequestExists(c: Setup, action: P.Action)
    requires RecordFor(c, action, None).Some? && c.w.CollisionFree(ManifestTexts(c))
    ensures RequestFor(c, action).Some?
  {
    RequestExactly(c, action);
    var rows := P.Resources(c.profile);
    forall i, j | 0 <= i < |rows| && 0 <= j < |rows| && P.DigestOf(rows[i]) == action.manifestDigest == P.DigestOf(rows[j])
      ensures i == j
    {
      DigestsDiffer(c, i, j);
    }
  }

  // ---------------------------------------------------------------- a CREATE that nothing disturbs

  /** Everything the outside contributes to one CREATE. */
  datatype Course = Course(action: P.Action, intent: L.Row, request: Request, response: string, confirmation: L.Row)

  /** Every check passes. */
  const CALM := Guards(true, true, true)

  function ResultOf(c: Setup, p: Pipe, x: Course): T.Frame
    requires p.transcript.execution.Some?
  {
    T.Frame(c.x.dispatch, p.transcript.execution.value, p.transcript.sequence + 1, p.transcript.previous,
            T.ResourceResult(x.action.actionId, T.CREATED, Some(x.response)))
  }

  /** The ledger takes the intent. */
  predicate Intends(c: Setup, p: Pipe, x: Course) {
    RowFor(c, p.stored, L.CREATE_INTENT, x.intent.observedAt, x.action, None) == Some(x.intent)
  }

  /** The action has its request, and the API answers with the object. */
  predicate Responds(c: Setup, x: Course) {
    RequestFor(c, x.action) == Some(x.request) && ObservedIn(x.response).Some? && RecordFor(c, x.action, ObservedIn(x.response)).Some?
  }

  /** The ledger takes the identity behind the intent. */
  predicate Confirms(c: Setup, p: Pipe, x: Course) {
    RowFor(c, p.stored + Line(x.intent), L.CREATED, x.confirmation.observedAt, x.action, ObservedIn(x.response)) == Some(x.confirmation)
  }

  /** Nothing attempted yet, with the action pending. */
  predicate Begun(c: Setup, p: Pipe, x: Course) {
    && Intact(c, p) && H.Phase(p.transcript) && p.transcript.pending == Some(x.action) && x.action.verb == P.CREATE
    && p.transcript.execution.Some? && p.api == Absent && !p.retired && p.effects == []
    && p.intent.None? && p.exchange.None? && p.created.None? && p.result.None?
  }

  /** The result frame can be taken. */
  predicate Fits(c: Setup, p: Pipe, x: Course)
    requires p.transcript.execution.Some?
  {
    1 <= x.action.actionId <= 256 && T.IsObject(x.response) && p.transcript.sequence < 2048 && c.x.fits(ResultOf(c, p, x))
  }

  lemma {:induction false} Appends(before: string, line: string)
    ensures Left(before, line, NoFault) == before + line
  {
    assert line[..|line|] == line;
  }

  /** The connection is made ready. */
  lemma {:induction false} PrepareSucceeds(c: Setup, p: Pipe)
    requires Intact(c, p) && p.api == Absent && p.transcript.pending.Some?
    ensures PrepareApi(c, p, CALM) == p.(api := Ready)
  {
  }

  lemma {:induction false} IntendsSo(c: Setup, p: Pipe, x: Course)
    requires Intact(c, p) && p.intent.None? && PendingIs(p, x.action) && x.action.verb == P.CREATE
    requires RowFor(c, p.stored, L.CREATE_INTENT, x.intent.observedAt, x.action, None) == Some(x.intent)
    ensures var after := p.stored + Line(x.intent);
            RecordIntent(c, p, x.intent.observedAt, CALM, NoFault)
            == p.(stored := after, ledgerRaw := after, intent := Some(Intent(x.action, x.intent, p.stored)))
  {
    Appends(p.stored, Line(x.intent));
  }

  lemma {:induction false} AsksSo(c: Setup, p: Pipe, x: Course)
    requires Intact(c, p) && p.exchange.None? && ActionHeld(p) && p.intent.value.action == x.action
    requires RequestFor(c, x.action) == Some(x.request) && Answers(c, p, Some(x.response))
    ensures Exchange(c, p, CALM, Some(x.response))
            == p.(effects := p.effects + [ApiWrite(p.stored, x.request)], exchange := Some(x.response))
  {
  }

  lemma {:induction false} ConfirmsSo(c: Setup, p: Pipe, x: Course)
    requires Intact(c, p) && p.created.None? && p.exchange == Some(x.response) && ActionHeld(p) && p.intent.value.action == x.action
    requires RowFor(c, p.stored, L.CREATED, x.confirmation.observedAt, x.action, ObservedIn(x.response)) == Some(x.confirmation)
    ensures var after := p.stored + Line(x.confirmation);
            RecordCreated(c, p, x.confirmation.observedAt, CALM, NoFault)
            == p.(stored := after, ledgerRaw := after, created := Some(Created(x.confirmation, p.stored)))
  {
    Appends(p.stored, Line(x.confirmation));
  }

  lemma {:induction false} ResultTaken(c: Setup, p: Pipe, x: Course)
    requires H.Phase(p.transcript) && p.transcript.execution.Some? && p.transcript.pending == Some(x.action) && x.action.verb == P.CREATE
    requires 1 <= x.action.actionId <= 256 && T.IsObject(x.response)
    requires p.transcript.sequence < 2048 && c.x.fits(ResultOf(c, p, x))
    ensures ResultFrame(c, p.transcript, x.action, x.response) == ResultOf(c, p, x)
    ensures T.Accept(c.w, c.x, p.transcript, ResultOf(c, p, x), T.SERVER) == Some(ResultTranscript(c, p, x))
  {
  }

  /** The transcript with the result: the action is no longer pending. */
  function ResultTranscript(c: Setup, p: Pipe, x: Course): T.Transcript
    requires p.transcript.execution.Some?
  {
    p.transcript.(pending := None, sequence := p.transcript.sequence + 1, previous := c.x.digest(ResultOf(c, p, x)))
  }

  lemma {:induction false} SendsSo(c: Setup, p: Pipe, x: Course)
    requires Intact(c, p) && H.Phase(p.transcript) && p.result.None? && p.created.Some? && ActionHeld(p)
    requires p.exchange == Some(x.response) && p.intent.value.action == x.action && p.transcript.execution.Some?
    requires ResultFrame(c, p.transcript, x.action, x.response) == ResultOf(c, p, x)
    requires T.Accept(c.w, c.x, p.transcript, ResultOf(c, p, x), T.SERVER) == Some(ResultTranscript(c, p, x))
    ensures SendResult(c, p, CALM)
            == p.(effects := p.effects + [ResultSend(p.stored, ResultOf(c, p, x))],
                  result := Some(Delivery(ResultOf(c, p, x), H.SnapshotOf(c.w, ResultTranscript(c, p, x)))))
  {
    H.RebuiltExactly(c.w, p.transcript);
  }

  lemma {:induction false} RetiresSo(c: Setup, p: Pipe, x: Course)
    requires Intact(c, p) && !p.retired && ActionHeld(p) && p.transcript.execution.Some?
    requires p.result == Some(Delivery(ResultOf(c, p, x), H.SnapshotOf(c.w, ResultTranscript(c, p, x))))
    requires T.Accept(c.w, c.x, p.transcript, ResultOf(c, p, x), T.SERVER) == Some(ResultTranscript(c, p, x))
    ensures var t := ResultTranscript(c, p, x);
            Retire(c, p, CALM) == p.(api := Closed, transcript := t, transcriptRaw := H.SnapshotOf(c.w, t), retired := true)
  {
  }

  // The pipeline after each step of an undisturbed CREATE.

  function Prepared(p: Pipe): Pipe {
    p.(api := Ready)
  }

  function Intended(p: Pipe, x: Course): Pipe {
    var after := p.stored + Line(x.intent);
    Prepared(p).(stored := after, ledgerRaw := after, intent := Some(Intent(x.action, x.intent, p.stored)))
  }

  function Asked(p: Pipe, x: Course): Pipe {
    Intended(p, x).(effects := [ApiWrite(p.stored + Line(x.intent), x.request)], exchange := Some(x.response))
  }

  function Confirmed(p: Pipe, x: Course): Pipe {
    var before := p.stored + Line(x.intent);
    var after := before + Line(x.confirmation);
    Asked(p, x).(stored := after, ledgerRaw := after, created := Some(Created(x.confirmation, before)))
  }

  function Sent(c: Setup, p: Pipe, x: Course): Pipe
    requires p.transcript.execution.Some?
  {
    Confirmed(p, x).(effects := Asked(p, x).effects + [ResultSend(Confirmed(p, x).stored, ResultOf(c, p, x))],
                     result := Some(Delivery(ResultOf(c, p, x), H.SnapshotOf(c.w, ResultTranscript(c, p, x)))))
  }

  function Done(c: Setup, p: Pipe, x: Course): Pipe
    requires p.transcript.execution.Some?
  {
    var t := ResultTranscript(c, p, x);
    Sent(c, p, x).(api := Closed, transcript := t, transcriptRaw := H.SnapshotOf(c.w, t), retired := true)
  }

  /** Behind a prepared connection the intent is written, and the pin follows. */
  lemma {:induction false} IntentSucceeds(c: Setup, p: Pipe, x: Course)
    requires Begun(c, p, x) && Intends(c, p, x)
    ensures RecordIntent(c, Prepared(p), x.intent.observedAt, CALM, NoFault) == Intended(p, x)
  {
    IntendsSo(c, Prepared(p), x);
  }

  /** Then the request is sent, once, and the answer kept. */
  lemma {:induction false} ExchangeSucceeds(c: Setup, p: Pipe, x: Course)
    requires Begun(c, p, x) && Responds(c, x)
    ensures Exchange(c, Intended(p, x), CALM, Some(x.response)) == Asked(p, x)
  {
    AsksSo(c, Intended(p, x), x);
  }

  /** Then the identity is written behind the intent. */
  lemma {:induction false} CreatedSucceeds(c: Setup, p: Pipe, x: Course)
    requires Begun(c, p, x) && Confirms(c, p, x)
    ensures RecordCreated(c, Asked(p, x), x.confirmation.observedAt, CALM, NoFault) == Confirmed(p, x)
  {
    ConfirmsSo(c, Asked(p, x), x);
  }

  /** Then the result is sent: the protocol always takes it, whatever came before. */
  lemma {:induction false} ResultSucceeds(c: Setup, p: Pipe, x: Course)
    requires Begun(c, p, x) && Fits(c, p, x)
    ensures SendResult(c, Confirmed(p, x), CALM) == Sent(c, p, x)
  {
    ResultTaken(c, p, x);
    SendsSo(c, Confirmed(p, x), x);
  }

  /** Then the connection is closed and the transcript waits for the next action. */
  lemma {:induction false} RetirementSucceeds(c: Setup, p: Pipe, x: Course)
    requires Begun(c, p, x) && Fits(c, p, x)
    ensures Retire(c, Sent(c, p, x), CALM) == Done(c, p, x)
  {
    ResultTaken(c, p, x);
    RetiresSo(c, Sent(c, p, x), x);
  }

  /** The last of these states has both rows in the file and the two effects, each behind its row. */
  lemma {:induction false} CompletedShows(c: Setup, p: Pipe, x: Course)
    requires Begun(c, p, x) && !p.failed && !p.logPoisoned
    ensures var q, intended := Done(c, p, x), p.stored + Line(x.intent);
            && q.retired && !q.failed && !q.logPoisoned && q.stored == intended + Line(x.confirmation)
            && q.effects == [ApiWrite(intended, x.request), ResultSend(q.stored, ResultOf(c, p, x))]
            && q.transcript == ResultTranscript(c, p, x)
  {
  }

  lemma {:induction false} FreshBegins(c: Setup, start: string, p: Pipe, x: Course)
    requires Fresh(c, start, p) && p.transcript.pending == Some(x.action) && x.action.verb == P.CREATE
    ensures Begun(c, p, x) && p.stored == start && !p.failed && !p.logPoisoned
  {
  }

  /**
    From a fresh pipeline with a pending CREATE these states form one course: it begins with the connection and ends
    retired, with both rows in the file and the two effects, each behind its row, and with the action answered.
   */
  lemma {:induction false} CourseCompletes(c: Setup, start: string, p: Pipe, x: Course)
    requires Fresh(c, start, p) && p.transcript.pending == Some(x.action) && x.action.verb == P.CREATE
    requires p.transcript.execution.Some? && Fits(c, p, x)
    ensures Begun(c, p, x) && PrepareApi(c, p, CALM) == Prepared(p) && Retire(c, Sent(c, p, x), CALM) == Done(c, p, x)
    ensures var q, intended := Done(c, p, x), start + Line(x.intent);
            && q.retired && !q.failed && !q.logPoisoned && q.stored == intended + Line(x.confirmation)
            && q.effects == [ApiWrite(intended, x.request), ResultSend(q.stored, ResultOf(c, p, x))]
            && q.transcript.pending.None? && q.transcript.sequence == p.transcript.sequence + 1
  {
    FreshBegins(c, start, p, x);
    PrepareSucceeds(c, p);
    RetirementSucceeds(c, p, x);
    CompletedShows(c, p, x);
  }
}
