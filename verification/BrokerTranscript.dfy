/**
  The broker protocol (live_mutation_admission.py, BrokerTranscript): an incremental parser of the
  frames one fixed execution exchanges.  Base64 payloads are modelled as the bytes they decode to.
 */
module BrokerTranscript {
  import opened Prelude
  import opened CanonicalJson
  import opened Digests
  import opened Cases
  import opened Budget
  import L = AdmissionLedger
  import P = Profiles

  const MAX_RECEIPT := 4194304
  const MAX_CHUNK := 24576
  const MAX_OBJECT := 16384

  // ---------------------------------------------------------------- frames

  /** The eight fields every frame repeats from the dispatch. */
  datatype Dispatch = Dispatch(
    bindingDigest: string, reservationDigest: string, runNonce: string, caseId: Case,
    requestDigest: string, observationDigest: string, generation: string, challenge: string)

  datatype Answer = ABSENT | CREATED | PRESENT | DELETED | DENIED | AMBIGUOUS

  datatype Cleanup = Cleanup(cleanupDigest: string, state: L.CleanState, remaining: seq<L.Remaining>)

  datatype Status = COMPLETED | FAILED | UNAVAILABLE

  datatype Verdict = Verdict(status: Status, receiptSize: int, receiptDigest: string, cleanupDigest: string)

  datatype Payload =
    | Started(workerPid: int, workerStartTicks: int)
    | ResourceAction(action: P.Action)
    | ResourceResult(actionId: int, answer: Answer, object_: Option<string>)
    | ReceiptChunk(index: int, data: string)
    | CleanupRecorded(cleanup: Cleanup)
    | Terminal(verdict: Verdict)
    | Abort
    | Declined

  datatype Frame = Frame(dispatch: Dispatch, executionId: string, sequence: int, previousDigest: string, payload: Payload)

  datatype Sender = BROKER | SERVER

  /** What a transcript is opened with; the canonical encoding of frames stays a parameter. */
  datatype Setting = Setting(dispatch: Dispatch, ownedDigests: seq<string>, digest: Frame -> string, fits: Frame -> bool)

  /** The bounds the frame schema puts on numbers, sizes and lists. */
  predicate FrameShape(x: Setting, f: Frame) {
    && x.fits(f) && 1 <= f.sequence <= 2048
    && match f.payload
       case Started(pid, ticks) => 2 <= pid <= 2147483647 && 1 <= ticks <= MAX_SAFE
       case ResourceAction(a) => 1 <= a.actionId <= 256 && IsDigest(a.manifestDigest)
       case ResourceResult(id, _, o) => 1 <= id <= 256
       case ReceiptChunk(i, data) => 0 <= i <= 170
       case CleanupRecorded(c) => IsDigest(c.cleanupDigest) && |c.remaining| <= 32
       case Terminal(v) => 1 <= v.receiptSize <= MAX_RECEIPT && IsDigest(v.receiptDigest) && IsDigest(v.cleanupDigest)
       case _ => true
  }

  predicate FromServer(p: Payload) {
    p.ResourceResult? || p.CleanupRecorded? || p.Abort?
  }

  // ---------------------------------------------------------------- the state and one frame

  datatype Transcript = Transcript(
    sequence: nat, previous: string, execution: Option<string>, pending: Option<P.Action>,
    cleanup: Option<Cleanup>, terminal: Option<Verdict>, actions: set<int>, chunks: seq<string>,
    receiptSize: int, failedAction: bool)

  const START := Transcript(0, ZERO, None, None, None, None, {}, [], 0, false)

  function Join(chunks: seq<string>): string {
    if chunks == [] then "" else Join(chunks[..|chunks| - 1]) + chunks[|chunks| - 1]
  }

  predicate Permitted(verb: P.Verb, answer: Answer) {
    answer == DENIED || answer == AMBIGUOUS ||
    match verb
    case CREATE => answer == CREATED
    case GET => answer == PRESENT || answer == ABSENT
    case DELETE => answer == DELETED
  }

  /** `document(raw, 16384)` of an object that must be a mapping. */
  predicate IsObject(raw: string) {
    && 0 < |raw| <= MAX_OBJECT
    && Document(raw).Some? && Document(raw).value.Obj? && WithinBudget(AdmissionRules(MAX_OBJECT), Document(raw).value)
  }

  predicate CleanupScope(x: Setting, remaining: seq<L.Remaining>) {
    && (forall i :: 0 <= i < |remaining| ==>
          && remaining[i].manifestDigest in x.ownedDigests
          && (remaining[i].uid.Some? || remaining[i].reasonCode == L.IO_AMBIGUOUS))
    && forall i, j :: 0 <= i < j < |remaining| ==> remaining[i].id != remaining[j].id
  }

  /** Whether the payload may come next. */
  predicate Allowed(w: Primitives, x: Setting, t: Transcript, p: Payload) {
    match p
    case Started(_, _) => true
    case ResourceAction(a) =>
      && t.pending.None? && t.chunks == [] && t.cleanup.None?
      && a.actionId !in t.actions && a.manifestDigest in x.ownedDigests
    case ResourceResult(id, answer, o) =>
      && t.pending.Some? && id == t.pending.value.actionId && Permitted(t.pending.value.verb, answer)
      && ((answer == CREATED || answer == PRESENT) <==> o.Some?)
      && (o.Some? ==> IsObject(o.value))
    case ReceiptChunk(i, data) =>
      && t.pending.None? && t.cleanup.None? && i == |t.chunks|
      && 0 < |data| <= MAX_CHUNK && t.receiptSize + |data| <= MAX_RECEIPT
    case CleanupRecorded(c) =>
      && t.pending.None? && t.chunks != [] && t.cleanup.None?
      && (c.state == L.CLEAN <==> c.remaining == []) && CleanupScope(x, c.remaining)
    case Terminal(v) =>
      && t.pending.None? && t.cleanup.Some? && v.receiptSize == t.receiptSize
      && v.receiptDigest == w.hash(Join(t.chunks)) && v.cleanupDigest == t.cleanup.value.cleanupDigest
      && (v.status == COMPLETED ==> t.cleanup.value.state == L.CLEAN && !t.failedAction)
    case _ => false
  }

  /** The transcript after a payload that was allowed. */
  function After(t: Transcript, p: Payload): Transcript {
    match p
    case ResourceAction(a) => t.(pending := Some(a), actions := t.actions + {a.actionId})
    case ResourceResult(_, answer, _) => t.(pending := None, failedAction := t.failedAction || answer == DENIED || answer == AMBIGUOUS)
    case ReceiptChunk(_, data) => t.(chunks := t.chunks + [data], receiptSize := t.receiptSize + |data|)
    case CleanupRecorded(c) => t.(cleanup := Some(c))
    case Terminal(v) => t.(terminal := Some(v))
    case _ => t
  }

  /** Everything checked before the payload is looked at. */
  predicate Addressed(x: Setting, t: Transcript, f: Frame, sender: Sender) {
    && FrameShape(x, f)
    && (sender == SERVER <==> FromServer(f.payload))
    && f.dispatch == x.dispatch && f.sequence == t.sequence + 1 && f.previousDigest == t.previous
    && (if t.execution.None? then f.payload.Started? else f.executionId == t.execution.value && !f.payload.Started?)
  }

  /** One accepted frame; None is a refusal, after which the parser is poisoned. */
  function Accept(w: Primitives, x: Setting, t: Transcript, f: Frame, sender: Sender): Option<Transcript> {
    if t.terminal.Some? || !Addressed(x, t, f, sender) || !Allowed(w, x, t, f.payload) then None
    else Some(After(t, f.payload).(execution := Some(f.executionId), sequence := t.sequence + 1, previous := x.digest(f)))
  }

  // ---------------------------------------------------------------- the object

  class Parser {
    const w: Primitives
    const x: Setting
    var sequence: nat
    var previous: string
    var execution: Option<string>
    var pending: Option<P.Action>
    var cleanup: Option<Cleanup>
    var terminal: Option<Verdict>
    var actions: set<int>
    var chunks: seq<string>
    var receiptSize: int
    var failedAction: bool
    var poisoned: bool

    constructor (w: Primitives, x: Setting)
      ensures this.w == w && this.x == x && !poisoned && State() == START
    {
      this.w, this.x := w, x;
      sequence, previous, execution, pending, cleanup, terminal := 0, ZERO, None, None, None, None;
      actions, chunks, receiptSize, failedAction, poisoned := {}, [], 0, false, false;
    }

    function State(): Transcript
      reads this
    {
      Transcript(sequence, previous, execution, pending, cleanup, terminal, actions, chunks, receiptSize, failedAction)
    }

    /** The part of `accept` inside its try block; a refusal may leave any fields half updated. */
    method Advance(f: Frame, sender: Sender) returns (ok: bool)
      requires terminal.None?
      modifies this
      ensures poisoned == old(poisoned)
      ensures ok <==> Accept(w, x, old(State()), f, sender).Some?
      ensures ok ==> Some(State()) == Accept(w, x, old(State()), f, sender)
    {
      if !FrameShape(x, f) || ((sender == SERVER) != FromServer(f.payload)) {
        return false;
      }
      if f.dispatch != x.dispatch || f.sequence != sequence + 1 || f.previousDigest != previous {
        return false;
      }
      if execution.None? {
        if !f.payload.Started? {
          return false;
        }
        execution := Some(f.executionId);
      } else if f.executionId != execution.value || f.payload.Started? {
        return false;
      }
      var before := State();
      if !Allowed(w, x, before, f.payload) {
        return false;
      }
      match f.payload {
        case ResourceAction(a) => pending, actions := Some(a), actions + {a.actionId};
        case ResourceResult(_, answer, _) => failedAction, pending := failedAction || answer == DENIED || answer == AMBIGUOUS, None;
        case ReceiptChunk(_, data) => chunks, receiptSize := chunks + [data], receiptSize + |data|;
        case CleanupRecorded(c) => cleanup := Some(c);
        case Terminal(v) => terminal := Some(v);
        case Started(_, _) =>
      }
      sequence, previous := f.sequence, x.digest(f);
      ok := true;
    }

    /** `accept`: a closed parser refuses and stays as it is; any other refusal poisons it for good. */
    method Receive(f: Frame, sender: Sender) returns (ok: bool)
      modifies this
      ensures old(poisoned) || old(terminal).Some? ==> !ok && poisoned == old(poisoned) && State() == old(State())
      ensures !old(poisoned) && old(terminal).None? ==>
                match Accept(w, x, old(State()), f, sender)
                case Some(next) => ok && !poisoned && State() == next
                case None => !ok && poisoned
    {
      if poisoned || terminal.Some? {
        return false;
      }
      ok := Advance(f, sender);
      poisoned := !ok;
    }

    /** `server_frame`: builds the one frame that continues the chain. */
    method ServerFrame(payload: Payload) returns (r: Option<Frame>)
      modifies this
      ensures old(execution).None? || old(poisoned) || old(terminal).Some? ==> r.None? && poisoned == old(poisoned) && State() == old(State())
      ensures old(execution).Some? && !old(poisoned) && old(terminal).None? ==>
                var f := Frame(x.dispatch, old(execution).value, old(sequence) + 1, old(previous), payload);
                match Accept(w, x, old(State()), f, SERVER)
                case Some(next) => r == Some(f) && !poisoned && State() == next
                case None => r.None? && poisoned
    {
      if execution.None? {
        return None;
      }
      var f := Frame(x.dispatch, execution.value, sequence + 1, previous, payload);
      var ok := Receive(f, SERVER);
      r := if ok then Some(f) else None;
    }

    method Receipt() returns (r: Option<string>)
      ensures r == if !poisoned && terminal.Some? then Some(Join(chunks)) else None
    {
      if poisoned || terminal.None? {
        return None;
      }
      r := Some(Join(chunks));
    }
  }
}
