/** What every accepted broker transcript looks like, from its first frame to its receipt. */
module BrokerHistory {
  import opened Prelude
  import opened Digests
  import opened BrokerTranscript
  import L = AdmissionLedger
  import P = Profiles

  datatype Sent = Sent(frame: Frame, sender: Sender)

  /** A whole run in which every frame is accepted. */
  function Run(w: Primitives, x: Setting, sent: seq<Sent>): Option<Transcript> {
    if sent == [] then Some(START)
    else
      match Run(w, x, sent[..|sent| - 1])
      case None => None
      case Some(t) => Accept(w, x, t, sent[|sent| - 1].frame, sent[|sent| - 1].sender)
  }

  function Payloads(sent: seq<Sent>): seq<Payload> {
    seq(|sent|, i requires 0 <= i < |sent| => sent[i].frame.payload)
  }

  // ---------------------------------------------------------------- the layout

  /** What stands at place i of a transcript with n actions and m chunks. */
  predicate Slot(p: seq<Payload>, n: nat, m: nat, i: nat)
    requires i < |p|
  {
    if i == 0 then p[i].Started?
    else if i <= 2 * n then
      if i % 2 == 1 then p[i].ResourceAction?
      else p[i].ResourceResult? && p[i - 1].ResourceAction? && p[i].actionId == p[i - 1].action.actionId
    else if i <= 2 * n + m then p[i].ReceiptChunk? && p[i].index == i - 2 * n - 1
    else if i == 2 * n + m + 1 then p[i].CleanupRecorded?
    else p[i].Terminal?
  }

  /** STARTED (ACTION RESULT)* CHUNK* CLEANUP TERMINAL, or a beginning of it. */
  predicate Layout(p: seq<Payload>, n: nat, m: nat) {
    forall i :: 0 <= i < |p| ==> Slot(p, n, m, i)
  }

  predicate Failed(p: Payload) {
    p.ResourceResult? && (p.answer == DENIED || p.answer == AMBIGUOUS)
  }

  predicate AnyFailed(p: seq<Payload>) {
    exists i :: 0 <= i < |p| && Failed(p[i])
  }

  function Bit(b: bool): nat {
    if b then 1 else 0
  }

  /** How many frames a state stands for. */
  function Frames(t: Transcript): int {
    if t.execution.None? then 0
    else 1 + 2 * |t.actions| - Bit(t.pending.Some?) + |t.chunks| + Bit(t.cleanup.Some?) + Bit(t.terminal.Some?)
  }

  /** Which parts of the state can be present together, and their sizes. */
  predicate Phase(t: Transcript) {
    && (t.execution.None? ==> t == START)
    && (t.pending.Some? ==> t.chunks == [] && t.cleanup.None? && t.actions != {})
    && (t.cleanup.Some? ==> t.chunks != []) && (t.terminal.Some? ==> t.cleanup.Some?)
    && (t.terminal.Some? ==> t.pending.None?)
    && (forall id :: id in t.actions ==> 1 <= id <= 256) && |t.chunks| <= 171
    && |Join(t.chunks)| == t.receiptSize <= MAX_RECEIPT
  }

  predicate Remembers(p: seq<Payload>, t: Transcript) {
    && (t.pending.Some? ==> p != [] && p[|p| - 1] == ResourceAction(t.pending.value))
    && (forall j :: 0 <= j < |t.chunks| ==>
          1 + 2 * |t.actions| + j < |p| && p[1 + 2 * |t.actions| + j] == ReceiptChunk(j, t.chunks[j]))
    && (t.failedAction <==> AnyFailed(p))
  }

  predicate Concludes(w: Primitives, t: Transcript) {
    && (t.cleanup.Some? ==> (t.cleanup.value.state == L.CLEAN <==> t.cleanup.value.remaining == []))
    && (t.terminal.Some? && t.cleanup.Some? ==>
          && t.terminal.value.receiptSize == t.receiptSize && t.terminal.value.receiptDigest == w.hash(Join(t.chunks))
          && t.terminal.value.cleanupDigest == t.cleanup.value.cleanupDigest
          && (t.terminal.value.status == COMPLETED ==> t.cleanup.value.state == L.CLEAN && !t.failedAction))
  }

  predicate Tracks(w: Primitives, p: seq<Payload>, t: Transcript) {
    && t.sequence == |p| == Frames(t) && Phase(t) && Layout(p, |t.actions|, |t.chunks|) && Remembers(p, t) && Concludes(w, t)
  }

  // ---------------------------------------------------------------- one frame keeps the layout

  lemma {:induction false} FailedMore(p: seq<Payload>, q: Payload)
    ensures AnyFailed(p + [q]) <==> AnyFailed(p) || Failed(q)
  {
    if AnyFailed(p) {
      var i :| 0 <= i < |p| && Failed(p[i]);
      assert (p + [q])[i] == p[i];
    }
    if Failed(q) {
      assert (p + [q])[|p|] == q;
    }
  }

  lemma {:induction false} LayoutMore(p: seq<Payload>, q: Payload, n: nat, m: nat, n': nat, m': nat)
    requires Layout(p, n, m) && Slot(p + [q], n', m', |p|)
    requires (n' == n && m' == m) || (n' == n + 1 && m == m' == 0 && |p| <= 2 * n + 1) || (n' == n && m' == m + 1 && |p| <= 2 * n + m + 1)
    ensures Layout(p + [q], n', m')
  {
    var more := p + [q];
    forall i | 0 <= i < |more|
      ensures Slot(more, n', m', i)
    {
      if i < |p| {
        assert Slot(p, n, m, i) && more[i] == p[i] && (i > 0 ==> more[i - 1] == p[i - 1]);
      }
    }
  }

  lemma {:induction false} StartedTracks(w: Primitives, x: Setting, p: seq<Payload>, t: Transcript, f: Frame, sender: Sender)
    requires Tracks(w, p, t) && f.payload.Started? && Accept(w, x, t, f, sender).Some?
    ensures Tracks(w, p + [f.payload], Accept(w, x, t, f, sender).value)
  {
    assert p == [] && t == START;
    FailedMore(p, f.payload);
  }

  lemma {:induction false} ActionTracks(w: Primitives, x: Setting, p: seq<Payload>, t: Transcript, f: Frame, sender: Sender)
    requires Tracks(w, p, t) && f.payload.ResourceAction? && Accept(w, x, t, f, sender).Some?
    ensures Tracks(w, p + [f.payload], Accept(w, x, t, f, sender).value)
  {
    FailedMore(p, f.payload);
    assert |t.actions + {f.payload.action.actionId}| == |t.actions| + 1;
    LayoutMore(p, f.payload, |t.actions|, 0, |t.actions| + 1, 0);
  }

  lemma {:induction false} ResultTracks(w: Primitives, x: Setting, p: seq<Payload>, t: Transcript, f: Frame, sender: Sender)
    requires Tracks(w, p, t) && f.payload.ResourceResult? && Accept(w, x, t, f, sender).Some?
    ensures Tracks(w, p + [f.payload], Accept(w, x, t, f, sender).value)
  {
    FailedMore(p, f.payload);
    assert |p| == 2 * |t.actions| && |t.actions| > 0;
    assert (p + [f.payload])[|p| - 1] == p[|p| - 1];
    LayoutMore(p, f.payload, |t.actions|, 0, |t.actions|, 0);
  }

  lemma {:induction false} JoinMore(chunks: seq<string>, data: string)
    ensures Join(chunks + [data]) == Join(chunks) + data
  {
    assert (chunks + [data])[..|chunks|] == chunks;
  }

  lemma {:induction false} ChunkTracks(w: Primitives, x: Setting, p: seq<Payload>, t: Transcript, f: Frame, sender: Sender)
    requires Tracks(w, p, t) && f.payload.ReceiptChunk? && Accept(w, x, t, f, sender).Some?
    ensures Tracks(w, p + [f.payload], Accept(w, x, t, f, sender).value)
  {
    FailedMore(p, f.payload);
    JoinMore(t.chunks, f.payload.data);
    LayoutMore(p, f.payload, |t.actions|, |t.chunks|, |t.actions|, |t.chunks| + 1);
    ChunkRemembered(p, t, f.payload, Accept(w, x, t, f, sender).value);
  }

  lemma {:induction false} ChunkRemembered(p: seq<Payload>, t: Transcript, q: Payload, next: Transcript)
    requires Remembers(p, t) && |p| == 1 + 2 * |t.actions| + |t.chunks| && t.pending.None?
    requires q.ReceiptChunk? && q.index == |t.chunks| && (next.failedAction <==> AnyFailed(p + [q]))
    requires next.actions == t.actions && next.chunks == t.chunks + [q.data] && next.pending == t.pending
    ensures Remembers(p + [q], next)
  {
  }

  lemma {:induction false} EndTracks(w: Primitives, x: Setting, p: seq<Payload>, t: Transcript, f: Frame, sender: Sender)
    requires Tracks(w, p, t) && (f.payload.CleanupRecorded? || f.payload.Terminal?) && Accept(w, x, t, f, sender).Some?
    ensures Tracks(w, p + [f.payload], Accept(w, x, t, f, sender).value)
  {
    FailedMore(p, f.payload);
    LayoutMore(p, f.payload, |t.actions|, |t.chunks|, |t.actions|, |t.chunks|);
  }

  lemma {:induction false} FrameTracks(w: Primitives, x: Setting, p: seq<Payload>, t: Transcript, f: Frame, sender: Sender)
    requires Tracks(w, p, t) && Accept(w, x, t, f, sender).Some?
    ensures Tracks(w, p + [f.payload], Accept(w, x, t, f, sender).value)
  {
    match f.payload
    case Started(_, _) => StartedTracks(w, x, p, t, f, sender);
    case ResourceAction(_) => ActionTracks(w, x, p, t, f, sender);
    case ResourceResult(_, _, _) => ResultTracks(w, x, p, t, f, sender);
    case ReceiptChunk(_, _) => ChunkTracks(w, x, p, t, f, sender);
    case CleanupRecorded(_) => EndTracks(w, x, p, t, f, sender);
    case Terminal(_) => EndTracks(w, x, p, t, f, sender);
    case _ =>
  }

  lemma {:induction false} RunTracks(w: Primitives, x: Setting, sent: seq<Sent>)
    requires Run(w, x, sent).Some?
    ensures Tracks(w, Payloads(sent), Run(w, x, sent).value)
  {
    if sent != [] {
      var before, last := sent[..|sent| - 1], sent[|sent| - 1];
      RunTracks(w, x, before);
      OneMoreSent(w, x, sent, Run(w, x, before).value);
    }
  }

  lemma {:induction false} OneMoreSent(w: Primitives, x: Setting, sent: seq<Sent>, t: Transcript)
    requires sent != [] && Tracks(w, Payloads(sent[..|sent| - 1]), t)
    requires Accept(w, x, t, sent[|sent| - 1].frame, sent[|sent| - 1].sender).Some?
    ensures Tracks(w, Payloads(sent), Accept(w, x, t, sent[|sent| - 1].frame, sent[|sent| - 1].sender).value)
  {
    var before, last := sent[..|sent| - 1], sent[|sent| - 1];
    FrameTracks(w, x, Payloads(before), t, last.frame, last.sender);
    PayloadsMore(sent);
  }

  lemma {:induction false} PayloadsMore(sent: seq<Sent>)
    requires sent != []
    ensures Payloads(sent) == Payloads(sent[..|sent| - 1]) + [sent[|sent| - 1].frame.payload]
  {
  }

  // ---------------------------------------------------------------- how long a transcript can be

  function UpTo(n: nat): (s: set<int>)
    ensures |s| == n
    ensures forall i :: i in s <==> 1 <= i <= n
  {
    if n == 0 then {} else UpTo(n - 1) + {n}
  }

  lemma {:induction false} SubsetSize(a: set<int>, b: set<int>)
    requires a <= b
    ensures |a| <= |b|
  {
    assert b == a + (b - a);
  }

  lemma {:induction false} AtMost256Actions(t: Transcript)
    requires Phase(t)
    ensures |t.actions| <= 256
  {
    SubsetSize(t.actions, UpTo(256));
  }

  // ---------------------------------------------------------------- theorems

  /** A finished transcript is STARTED, then n pairs of action and result, then m chunks, then CLEANUP and TERMINAL. */
  lemma {:induction false} FinishedShape(w: Primitives, x: Setting, sent: seq<Sent>)
    requires Run(w, x, sent).Some? && Run(w, x, sent).value.terminal.Some?
    ensures var t := Run(w, x, sent).value;
            var n, m := |t.actions|, |t.chunks|;
            && n <= 256 && 1 <= m <= 171 && |sent| == 3 + 2 * n + m <= 686
            && Layout(Payloads(sent), n, m)
  {
    RunTracks(w, x, sent);
    AtMost256Actions(Run(w, x, sent).value);
  }

  /** While a transcript is open its next sequence number is far below the 2048 of the schema, so that cap never refuses. */
  lemma {:induction false} CapNeverBinds(w: Primitives, x: Setting, sent: seq<Sent>)
    requires Run(w, x, sent).Some? && Run(w, x, sent).value.terminal.None?
    ensures Run(w, x, sent).value.sequence + 1 <= 686
  {
    RunTracks(w, x, sent);
    AtMost256Actions(Run(w, x, sent).value);
  }

  /** COMPLETED is only ever reached with a clean cleanup, nothing remaining, and every action answered as asked. */
  lemma {:induction false} CompletedMeansClean(w: Primitives, x: Setting, sent: seq<Sent>)
    requires Run(w, x, sent).Some? && Run(w, x, sent).value.terminal.Some?
    requires Run(w, x, sent).value.terminal.value.status == COMPLETED
    ensures var t := Run(w, x, sent).value;
            && t.cleanup.Some? && t.cleanup.value.state == L.CLEAN && t.cleanup.value.remaining == []
            && forall i :: 0 <= i < |sent| ==> !Failed(sent[i].frame.payload)
  {
    RunTracks(w, x, sent);
    forall i | 0 <= i < |sent|
      ensures !Failed(sent[i].frame.payload)
    {
      assert Payloads(sent)[i] == sent[i].frame.payload;
    }
  }

  lemma {:induction false} RunAt(w: Primitives, x: Setting, sent: seq<Sent>, i: nat)
    requires Run(w, x, sent).Some? && i < |sent|
    ensures Run(w, x, sent[..i]).Some? && Accept(w, x, Run(w, x, sent[..i]).value, sent[i].frame, sent[i].sender).Some?
    decreases |sent|
  {
    if i == |sent| - 1 {
      assert sent[..i] == sent[..|sent| - 1];
    } else {
      RunAt(w, x, sent[..|sent| - 1], i);
      assert sent[..|sent| - 1][..i] == sent[..i];
    }
  }

  /** The numbers of all actions so far. */
  lemma {:induction false} ActionsCollected(w: Primitives, x: Setting, sent: seq<Sent>, i: nat)
    requires Run(w, x, sent).Some? && i < |sent| && sent[i].frame.payload.ResourceAction?
    ensures sent[i].frame.payload.action.actionId in Run(w, x, sent).value.actions
    decreases |sent|
  {
    if i < |sent| - 1 {
      ActionsCollected(w, x, sent[..|sent| - 1], i);
    }
  }

  /** Every action concerns a manifest of this case and has a number of its own. */
  lemma {:induction false} ActionsAreOwned(w: Primitives, x: Setting, sent: seq<Sent>, i: nat, j: nat)
    requires Run(w, x, sent).Some? && i < j < |sent|
    requires sent[i].frame.payload.ResourceAction? && sent[j].frame.payload.ResourceAction?
    ensures sent[i].frame.payload.action.actionId != sent[j].frame.payload.action.actionId
    ensures sent[i].frame.payload.action.manifestDigest in x.ownedDigests && sent[j].frame.payload.action.manifestDigest in x.ownedDigests
  {
    RunAt(w, x, sent, i);
    RunAt(w, x, sent, j);
    ActionsCollected(w, x, sent[..j], i);
  }

  /** Every result directly follows its action, with an answer its verb permits and an object exactly when one exists. */
  lemma {:induction false} ResultAnswersItsAction(w: Primitives, x: Setting, sent: seq<Sent>, i: nat)
    requires Run(w, x, sent).Some? && i < |sent| && sent[i].frame.payload.ResourceResult?
    ensures i > 0 && sent[i - 1].frame.payload.ResourceAction?
    ensures var action, result := sent[i - 1].frame.payload.action, sent[i].frame.payload;
            && result.actionId == action.actionId
            && (match result.answer
                case CREATED => action.verb == P.CREATE
                case PRESENT => action.verb == P.GET
                case ABSENT => action.verb == P.GET
                case DELETED => action.verb == P.DELETE
                case _ => true)
            && (result.answer == CREATED || result.answer == PRESENT <==> result.object_.Some?)
            && (result.object_.Some? ==> IsObject(result.object_.value))
  {
    RunAt(w, x, sent, i);
    RunTracks(w, x, sent[..i]);
    var p := Payloads(sent[..i]);
    assert p != [] && p[i - 1] == sent[i - 1].frame.payload;
  }

  /** A recorded cleanup lists only manifests of this case, each object once, and an unknown uid only as ambiguous. */
  lemma {:induction false} CleanupInScope(w: Primitives, x: Setting, sent: seq<Sent>, i: nat)
    requires Run(w, x, sent).Some? && i < |sent| && sent[i].frame.payload.CleanupRecorded?
    ensures CleanupScope(x, sent[i].frame.payload.cleanup.remaining)
    ensures sent[i].frame.payload.cleanup.state == L.CLEAN <==> sent[i].frame.payload.cleanup.remaining == []
  {
    RunAt(w, x, sent, i);
  }

  /** The data of the chunk frames, in the order they were sent. */
  function ChunkData(p: seq<Payload>): string {
    if p == [] then ""
    else ChunkData(p[..|p| - 1]) + if p[|p| - 1].ReceiptChunk? then p[|p| - 1].data else ""
  }

  lemma {:induction false} RunJoins(w: Primitives, x: Setting, sent: seq<Sent>)
    requires Run(w, x, sent).Some?
    ensures Join(Run(w, x, sent).value.chunks) == ChunkData(Payloads(sent))
  {
    if sent != [] {
      var before, last := sent[..|sent| - 1], sent[|sent| - 1];
      RunJoins(w, x, before);
      assert Payloads(sent)[..|sent| - 1] == Payloads(before);
      FrameJoins(w, x, Run(w, x, before).value, last);
    }
  }

  lemma {:induction false} FrameJoins(w: Primitives, x: Setting, t: Transcript, s: Sent)
    requires Accept(w, x, t, s.frame, s.sender).Some?
    ensures Join(Accept(w, x, t, s.frame, s.sender).value.chunks) ==
            Join(t.chunks) + if s.frame.payload.ReceiptChunk? then s.frame.payload.data else ""
  {
    if s.frame.payload.ReceiptChunk? {
      JoinMore(t.chunks, s.frame.payload.data);
    }
  }

  /** The receipt is exactly the data sent, of the stated size and digest, and not empty. */
  lemma {:induction false} ReceiptIsWhatWasSent(w: Primitives, x: Setting, sent: seq<Sent>)
    requires Run(w, x, sent).Some? && Run(w, x, sent).value.terminal.Some?
    ensures var t := Run(w, x, sent).value;
            && Join(t.chunks) == ChunkData(Payloads(sent))
            && |Join(t.chunks)| == t.terminal.value.receiptSize <= MAX_RECEIPT
            && w.hash(Join(t.chunks)) == t.terminal.value.receiptDigest
            && t.cleanup.Some? && t.cleanup.value.cleanupDigest == t.terminal.value.cleanupDigest
  {
    RunTracks(w, x, sent);
    RunJoins(w, x, sent);
  }

  /** Directions, dispatch and digest chain of an accepted run. */
  lemma {:induction false} FramesChain(w: Primitives, x: Setting, sent: seq<Sent>, i: nat)
    requires Run(w, x, sent).Some? && i < |sent|
    ensures sent[i].frame.sequence == i + 1 && sent[i].frame.dispatch == x.dispatch
    ensures sent[i].frame.previousDigest == if i == 0 then ZERO else x.digest(sent[i - 1].frame)
    ensures sent[i].sender == SERVER <==> FromServer(sent[i].frame.payload)
    ensures sent[i].frame.executionId == sent[0].frame.executionId
    ensures Run(w, x, sent).value.previous == x.digest(sent[|sent| - 1].frame) && Run(w, x, sent).value.sequence == |sent|
    ensures Run(w, x, sent).value.execution == Some(sent[0].frame.executionId)
    decreases |sent|
  {
    var before := sent[..|sent| - 1];
    if before == [] {
      assert sent[..0] == [];
    } else {
      FramesChain(w, x, before, if i < |before| then i else |before| - 1);
      FramesChain(w, x, before, 0);
    }
  }

  /** One frame to a parser that may be poisoned (None); a closed transcript refuses without changing. */
  function Deliver(w: Primitives, x: Setting, c: Option<Transcript>, s: Sent): Option<Transcript> {
    match c
    case None => None
    case Some(t) => if t.terminal.Some? then c else Accept(w, x, t, s.frame, s.sender)
  }

  function DeliverAll(w: Primitives, x: Setting, c: Option<Transcript>, sent: seq<Sent>): Option<Transcript> {
    if sent == [] then c else Deliver(w, x, DeliverAll(w, x, c, sent[..|sent| - 1]), sent[|sent| - 1])
  }

  /** Refusals are absorbing: whatever arrives afterwards, a poisoned parser stays poisoned and a closed one stays as it was. */
  lemma {:induction false} RefusalIsAbsorbing(w: Primitives, x: Setting, c: Option<Transcript>, sent: seq<Sent>)
    requires c.None? || c.value.terminal.Some?
    ensures DeliverAll(w, x, c, sent) == c
  {
    if sent != [] {
      RefusalIsAbsorbing(w, x, c, sent[..|sent| - 1]);
    }
  }

  // ---------------------------------------------------------------- snapshots

  datatype Summary = Summary(size: nat, digest: string)

  /** `_snapshot`: the transcript with every chunk reduced to its size and digest. */
  datatype Snapshot = Snapshot(rest: Transcript, summaries: seq<Summary>)

  function SnapshotOf(w: Primitives, t: Transcript): Snapshot {
    Snapshot(t.(chunks := []), seq(|t.chunks|, i requires 0 <= i < |t.chunks| => Summary(|t.chunks[i]|, w.hash(t.chunks[i]))))
  }

  /** The detached parser `_candidate` rebuilds from the retained snapshot. */
  function Rebuilt(s: Snapshot): Transcript {
    s.rest
  }

  /** Rebuilding gives the transcript back exactly when it holds no chunk, and any transcript with a pending action holds none. */
  lemma {:induction false} RebuiltExactly(w: Primitives, t: Transcript)
    ensures Rebuilt(SnapshotOf(w, t)) == t <==> t.chunks == []
    ensures SnapshotOf(w, Rebuilt(SnapshotOf(w, t))) == SnapshotOf(w, t) <==> t.chunks == []
    ensures Phase(t) && t.pending.Some? ==> t.chunks == []
  {
    var s := SnapshotOf(w, Rebuilt(SnapshotOf(w, t)));
    assert |s.summaries| == 0 && |SnapshotOf(w, t).summaries| == |t.chunks|;
    if t.chunks == [] {
      assert s.summaries == SnapshotOf(w, t).summaries;
    }
  }

  /** The shortest run with a receipt chunk: STARTED and one byte. */
  function ChunkRun(x: Setting): seq<Sent> {
    var started := Frame(x.dispatch, "execution", 1, ZERO, Started(2, 1));
    [Sent(started, BROKER), Sent(Frame(x.dispatch, "execution", 2, x.digest(started), ReceiptChunk(0, "r")), BROKER)]
  }

  /** It is accepted, and its snapshot rebuilds neither the transcript nor itself: the chunk is gone. */
  lemma {:induction false} ChunkIsLost(w: Primitives, x: Setting)
    requires x.fits(ChunkRun(x)[0].frame) && x.fits(ChunkRun(x)[1].frame)
    ensures Run(w, x, ChunkRun(x)).Some? && Run(w, x, ChunkRun(x)).value.chunks == ["r"]
    ensures var t := Run(w, x, ChunkRun(x)).value;
            Rebuilt(SnapshotOf(w, t)) != t && SnapshotOf(w, Rebuilt(SnapshotOf(w, t))) != SnapshotOf(w, t)
  {
    var sent := ChunkRun(x);
    assert sent[..1] == [sent[0]] && sent[..1][..0] == [];
    assert Run(w, x, []) == Some(START);
    assert Run(w, x, sent[..1]) == Accept(w, x, START, sent[0].frame, BROKER);
    RebuiltExactly(w, Run(w, x, sent).value);
  }

  /**
    Snapshot simulation: as long as an action is pending, accepting a frame on the rebuilt transcript and
    on the original either fails on both or gives the same snapshot.
   */
  lemma {:induction false} SnapshotSimulates(w: Primitives, x: Setting, sent: seq<Sent>, f: Frame, sender: Sender)
    requires Run(w, x, sent).Some? && Run(w, x, sent).value.pending.Some?
    ensures var t := Run(w, x, sent).value;
            var detached, original := Accept(w, x, Rebuilt(SnapshotOf(w, t)), f, sender), Accept(w, x, t, f, sender);
            && (detached.Some? <==> original.Some?)
            && (original.Some? ==> SnapshotOf(w, detached.value) == SnapshotOf(w, original.value))
  {
    RunTracks(w, x, sent);
    RebuiltExactly(w, Run(w, x, sent).value);
  }
}
