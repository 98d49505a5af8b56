/** Which frame an accepted broker transcript may continue with, read off the frames sent so far. */
module BrokerRules {
  import opened Prelude
  import opened Digests
  import opened BrokerTranscript
  import opened BrokerHistory
  import L = AdmissionLedger
  import P = Profiles

  // ---------------------------------------------------------------- what has been sent

  function Front(p: seq<Payload>): seq<Payload>
    requires p != []
  {
    p[..|p| - 1]
  }

  function Last(p: seq<Payload>): Payload
    requires p != []
  {
    p[|p| - 1]
  }

  /** The action still waiting for its result. */
  function Waiting(p: seq<Payload>): Option<P.Action> {
    if p != [] && Last(p).ResourceAction? then Some(Last(p).action) else None
  }

  function Numbers(p: seq<Payload>): set<int> {
    if p == [] then {} else Numbers(Front(p)) + if Last(p).ResourceAction? then {Last(p).action.actionId} else {}
  }

  function Chunks(p: seq<Payload>): seq<string> {
    if p == [] then [] else Chunks(Front(p)) + if Last(p).ReceiptChunk? then [Last(p).data] else []
  }

  function Cleaned(p: seq<Payload>): Option<Cleanup> {
    if p == [] then None else if Last(p).CleanupRecorded? then Some(Last(p).cleanup) else Cleaned(Front(p))
  }

  // ---------------------------------------------------------------- the rules

  /** The numbers and sizes a frame may carry, whatever came before. */
  predicate InBounds(x: Setting, f: Frame) {
    && x.fits(f) && 1 <= f.sequence <= 2048
    && match f.payload
       case Started(pid, ticks) => 2 <= pid <= 2147483647 && 1 <= ticks <= 9007199254740991
       case ResourceAction(a) => 1 <= a.actionId <= 256 && IsDigest(a.manifestDigest)
       case ResourceResult(id, _, _) => 1 <= id <= 256
       case ReceiptChunk(i, _) => 0 <= i <= 170
       case CleanupRecorded(c) => IsDigest(c.cleanupDigest) && |c.remaining| <= 32
       case Terminal(v) => 1 <= v.receiptSize <= 4194304 && IsDigest(v.receiptDigest) && IsDigest(v.cleanupDigest)
       case _ => true
  }

  /** The next link of the chain, of this dispatch and execution, from the right side. */
  predicate Continues(x: Setting, sent: seq<Sent>, f: Frame, sender: Sender) {
    && f.dispatch == x.dispatch && f.sequence == |sent| + 1
    && f.previousDigest == (if sent == [] then ZERO else x.digest(sent[|sent| - 1].frame))
    && (sent == [] <==> f.payload.Started?)
    && (sent != [] ==> f.executionId == sent[0].frame.executionId)
    && (sender == SERVER <==> f.payload.ResourceResult? || f.payload.CleanupRecorded? || f.payload.Abort?)
  }

  /** The outcomes of each verb, and an object exactly with CREATED and PRESENT. */
  predicate Outcome(verb: P.Verb, answer: Answer, o: Option<string>) {
    && match answer
       case CREATED => verb == P.CREATE && o.Some? && IsObject(o.value)
       case PRESENT => verb == P.GET && o.Some? && IsObject(o.value)
       case ABSENT => verb == P.GET && o.None?
       case DELETED => verb == P.DELETE && o.None?
       case DENIED => o.None?
       case AMBIGUOUS => o.None?
  }

  predicate Scoped(x: Setting, c: Cleanup) {
    && (c.state == L.CLEAN <==> c.remaining == [])
    && (forall i :: 0 <= i < |c.remaining| ==> c.remaining[i].manifestDigest in x.ownedDigests)
    && (forall i :: 0 <= i < |c.remaining| && c.remaining[i].uid.None? ==> c.remaining[i].reasonCode == L.IO_AMBIGUOUS)
    && (forall i, j :: 0 <= i < j < |c.remaining| ==> c.remaining[i].id != c.remaining[j].id)
  }

  predicate NextPayload(w: Primitives, x: Setting, p: seq<Payload>, q: Payload) {
    match q
    case Started(_, _) => p == []
    case ResourceAction(a) =>
      Waiting(p).None? && Chunks(p) == [] && Cleaned(p).None? && a.actionId !in Numbers(p) && a.manifestDigest in x.ownedDigests
    case ResourceResult(id, answer, o) =>
      Waiting(p).Some? && id == Waiting(p).value.actionId && Outcome(Waiting(p).value.verb, answer, o)
    case ReceiptChunk(i, data) =>
      Waiting(p).None? && Cleaned(p).None? && i == |Chunks(p)| && 1 <= |data| <= 24576 && |ChunkData(p)| + |data| <= 4194304
    case CleanupRecorded(c) => Waiting(p).None? && Chunks(p) != [] && Cleaned(p).None? && Scoped(x, c)
    case Terminal(v) =>
      && Waiting(p).None? && Cleaned(p).Some? && v.cleanupDigest == Cleaned(p).value.cleanupDigest
      && v.receiptSize == |ChunkData(p)| && v.receiptDigest == w.hash(ChunkData(p))
      && (v.status == COMPLETED ==> Cleaned(p).value.state == L.CLEAN && !AnyFailed(p))
    case Abort => false
    case Declined => false
  }

  /** What may follow an accepted transcript. */
  predicate MayFollow(w: Primitives, x: Setting, sent: seq<Sent>, f: Frame, sender: Sender) {
    && (sent != [] ==> !sent[|sent| - 1].frame.payload.Terminal?)
    && InBounds(x, f) && Continues(x, sent, f, sender) && NextPayload(w, x, Payloads(sent), f.payload)
  }

  // ---------------------------------------------------------------- the parser's fields tell what was sent

  predicate Tells(x: Setting, sent: seq<Sent>, t: Transcript) {
    var p := Payloads(sent);
    && t.sequence == |sent| && t.previous == (if sent == [] then ZERO else x.digest(sent[|sent| - 1].frame))
    && t.execution == (if sent == [] then None else Some(sent[0].frame.executionId))
    && t.pending == Waiting(p) && t.actions == Numbers(p) && t.chunks == Chunks(p) && t.cleanup == Cleaned(p)
    && (t.terminal.Some? <==> p != [] && Last(p).Terminal?)
  }

  lemma {:induction false} PayloadsLast(sent: seq<Sent>)
    requires sent != []
    ensures Payloads(sent) != [] && Front(Payloads(sent)) == Payloads(sent[..|sent| - 1])
    ensures Last(Payloads(sent)) == sent[|sent| - 1].frame.payload
  {
  }

  lemma {:induction false} OneMoreTells(w: Primitives, x: Setting, sent: seq<Sent>, t: Transcript)
    requires sent != [] && Tells(x, sent[..|sent| - 1], t)
    requires Accept(w, x, t, sent[|sent| - 1].frame, sent[|sent| - 1].sender).Some?
    ensures Tells(x, sent, Accept(w, x, t, sent[|sent| - 1].frame, sent[|sent| - 1].sender).value)
  {
    PayloadsLast(sent);
  }

  lemma {:induction false} RunTells(w: Primitives, x: Setting, sent: seq<Sent>)
    requires Run(w, x, sent).Some?
    ensures Tells(x, sent, Run(w, x, sent).value)
  {
    if sent != [] {
      RunTells(w, x, sent[..|sent| - 1]);
      OneMoreTells(w, x, sent, Run(w, x, sent[..|sent| - 1]).value);
    }
  }

  // ---------------------------------------------------------------- the theorem

  lemma {:induction false} BoundsExactly(x: Setting, f: Frame)
    ensures FrameShape(x, f) <==> InBounds(x, f)
  {
  }

  lemma {:induction false} AddressExactly(x: Setting, sent: seq<Sent>, t: Transcript, f: Frame, sender: Sender)
    requires Tells(x, sent, t)
    ensures Addressed(x, t, f, sender) <==> InBounds(x, f) && Continues(x, sent, f, sender)
  {
    BoundsExactly(x, f);
  }

  lemma {:induction false} OutcomeExactly(verb: P.Verb, answer: Answer, o: Option<string>)
    ensures Outcome(verb, answer, o) <==>
            Permitted(verb, answer) && (answer == CREATED || answer == PRESENT <==> o.Some?) && (o.Some? ==> IsObject(o.value))
  {
  }

  lemma {:induction false} ScopeExactly(x: Setting, c: Cleanup)
    ensures Scoped(x, c) <==> (c.state == L.CLEAN <==> c.remaining == []) && CleanupScope(x, c.remaining)
  {
  }

  lemma {:induction false} PayloadExactly(w: Primitives, x: Setting, sent: seq<Sent>, t: Transcript, q: Payload)
    requires Tells(x, sent, t) && Tracks(w, Payloads(sent), t) && Join(t.chunks) == ChunkData(Payloads(sent))
    requires q.Started? <==> sent == []
    ensures Allowed(w, x, t, q) <==> NextPayload(w, x, Payloads(sent), q)
  {
    match q
    case ResourceResult(_, answer, o) =>
      if t.pending.Some? {
        OutcomeExactly(t.pending.value.verb, answer, o);
      }
    case CleanupRecorded(c) => ScopeExactly(x, c);
    case _ =>
  }

  lemma {:induction false} AcceptExactly(w: Primitives, x: Setting, sent: seq<Sent>, t: Transcript, f: Frame, sender: Sender)
    requires Tells(x, sent, t) && Tracks(w, Payloads(sent), t) && Join(t.chunks) == ChunkData(Payloads(sent))
    ensures Accept(w, x, t, f, sender).Some? <==> MayFollow(w, x, sent, f, sender)
  {
    AddressExactly(x, sent, t, f, sender);
    if sent != [] {
      PayloadsLast(sent);
    }
    if Continues(x, sent, f, sender) {
      PayloadExactly(w, x, sent, t, f.payload);
    }
  }

  lemma {:induction false} OneMoreRun(w: Primitives, x: Setting, sent: seq<Sent>, s: Sent)
    requires Run(w, x, sent).Some?
    ensures Run(w, x, sent + [s]) == Accept(w, x, Run(w, x, sent).value, s.frame, s.sender)
  {
    assert (sent + [s])[..|sent|] == sent;
  }

  /** After an accepted transcript a frame is accepted if and only if the frames before it allow it. */
  lemma {:induction false} AcceptedExactly(w: Primitives, x: Setting, sent: seq<Sent>, f: Frame, sender: Sender)
    requires Run(w, x, sent).Some?
    ensures Run(w, x, sent + [Sent(f, sender)]).Some? <==> MayFollow(w, x, sent, f, sender)
  {
    OneMoreRun(w, x, sent, Sent(f, sender));
    RunTells(w, x, sent);
    RunTracks(w, x, sent);
    RunJoins(w, x, sent);
    AcceptExactly(w, x, sent, Run(w, x, sent).value, f, sender);
  }
}
