/**
  What each call of the session machine does, read off its inputs: how far it gets, with what events, and which
  row, if any, ends the session.  A campaign that passes its ten cases in time is recorded as completed.
 */
module SessionRules {
  import opened Prelude
  import opened CanonicalJson
  import opened Digests
  import opened Cases
  import opened DurableFile
  import opened SessionSteps
  import opened SessionRuns
  import J = ReplayJournal
  import K = JournalRules

  // ---------------------------------------------------------------- clocks

  /** Both clocks gave a usable time, neither before the last one seen. */
  predicate Sound(w: Primitives, a: Active, r: Reading) {
    && r.wall.Ok? && w.IsTime(r.wall.value) && r.monotonic.At?
    && a.lastWall <= w.Instant(r.wall.value) && a.lastMonotonic <= r.monotonic.time
  }

  /** The wall clock has reached the end of the window. */
  predicate Past(w: Primitives, a: Active, r: Reading)
    requires Sound(w, a, r) && w.IsTime(a.binding.notAfter)
  {
    w.Instant(a.binding.notAfter) <= w.Instant(r.wall.value)
  }

  /** The monotonic clock has reached the deadline. */
  predicate Late(a: Active, r: Reading)
    requires r.monotonic.At?
  {
    a.deadline <= r.monotonic.time
  }

  predicate InTime(w: Primitives, a: Active, r: Reading)
    requires w.IsTime(a.binding.notAfter)
  {
    Sound(w, a, r) && !Past(w, a, r) && !Late(a, r)
  }

  /** Only sound readings are remembered. */
  function Noted(w: Primitives, a: Active, r: Reading): (b: Active)
    ensures b == a.(lastWall := b.lastWall, lastMonotonic := b.lastMonotonic)
  {
    if Sound(w, a, r) then a.(lastWall := w.Instant(r.wall.value), lastMonotonic := r.monotonic.time) else a
  }

  lemma {:induction false} NowExactly(w: Primitives, a: Active, r: Reading)
    requires w.IsTime(a.binding.notAfter)
    ensures Now(w, a, r).0 == Noted(w, a, r)
    ensures Now(w, a, r).1.Ok? <==> InTime(w, a, r)
    ensures Now(w, a, r).1.Ok? ==> Now(w, a, r).1 == r.wall
  {
  }

  // ---------------------------------------------------------------- the end of a session

  /** The journal transaction of a row. */
  function Tried(w: Primitives, s: World, b: J.Binding, state: J.State, now: string, receipt: Option<string>, fault: Fault): J.Done {
    J.Recorded(w, s.poisoned, s.stored, b, state, now, receipt, fault)
  }

  /** The world behind a transaction, without a session. */
  function Behind(s: World, state: J.State, d: J.Done): World {
    s.(poisoned := d.poisoned, stored := s.stored + d.wrote, trace := s.trace + [Journalled(state, d.outcome, d.wrote)])
  }

  /** The digest a terminal row carries. */
  function ReceiptOf(w: Primitives, state: J.State, done: map<Case, string>): string {
    w.hash(Encode(OutcomeJson(state, done)))
  }

  /** The session is gone, and its terminal row says `state`. */
  predicate ClaimedAs(w: Primitives, s: World, t: World, state: J.State, end: Finish)
    requires s.active.Some? && end.reading.wall.Ok?
  {
    var a := s.active.value;
    var d := Tried(w, s, a.binding, state, end.reading.wall.value, Some(ReceiptOf(w, state, a.done)), end.fault);
    t == Behind(s.(active := None, trace := s.trace + [Cleanup(true)]), state, d)
  }

  /** The state of the row: EXPIRED from the end of the window on, FAILED from the deadline on, `wanted` before both. */
  function Claimed(w: Primitives, a: Active, wanted: J.State, r: Reading): J.State
    requires Sound(w, a, r) && w.IsTime(a.binding.notAfter)
  {
    if Past(w, a, r) then J.EXPIRED else if Late(a, r) then J.FAILED else wanted
  }

  /** How a session ends that is to end as `wanted`: without sound clocks and a proven cleanup nothing is claimed. */
  predicate EndsAs(w: Primitives, s: World, t: World, wanted: J.State, end: Finish)
    requires s.active.Some? && w.IsTime(s.active.value.binding.notAfter)
  {
    if !Sound(w, s.active.value, end.reading) || end.cleanup.Refused? then
      t == s.(active := None, trace := s.trace + [Cleanup(end.cleanup.Ok?)])
    else ClaimedAs(w, s, t, Claimed(w, s.active.value, wanted, end.reading), end)
  }

  /** The answer of a call whose last event decides: `answer` if the row was written, else the refusal. */
  predicate Tells<T(==)>(trace: seq<Event>, answer: T, r: Outcome<T>) {
    trace != [] &&
    var last := trace[|trace| - 1];
    if !last.Journalled? then r.Refused?
    else if last.outcome.Ok? then r == Ok(answer)
    else r == Refused(last.outcome.reason)
  }

  lemma {:induction false} VerdictExactly(w: Primitives, a: Active, wanted: J.State, r: Reading)
    requires w.IsTime(a.binding.notAfter)
    ensures Verdict(w, a, wanted, r).Ok? <==> Sound(w, a, r)
    ensures Sound(w, a, r) ==> Verdict(w, a, wanted, r) == Ok(Claimed(w, a, wanted, r))
  {
  }

  lemma {:induction false} ClaimExactly(w: Primitives, s: World, state: J.State, end: Finish)
    requires s.active.Some? && end.reading.wall.Ok?
    ensures var (t, r) := Claim(w, Saw(s.(active := None), Cleanup(true)), s.active.value, state, end);
            ClaimedAs(w, s, t, state, end) && Tells(t.trace, state, r)
  {
  }

  lemma {:induction false} TerminateUnfolds(w: Primitives, s: World, wanted: J.State, original: Option<string>, end: Finish)
    requires s.active.Some?
    ensures var (t, r) := Terminate(w, s, wanted, original, end);
            var verdict := Verdict(w, s.active.value, wanted, end.reading);
            if verdict.Ok? && end.cleanup.Ok? then
              end.reading.wall.Ok? && (t, r) == Claim(w, Saw(s.(active := None), Cleanup(true)), s.active.value, verdict.value, end)
            else r.Refused? && t == Saw(s.(active := None), Cleanup(end.cleanup.Ok?))
  {
  }

  lemma {:induction false} TerminateExactly(w: Primitives, s: World, wanted: J.State, original: Option<string>, end: Finish)
    requires s.active.Some? && w.IsTime(s.active.value.binding.notAfter)
    ensures EndsAs(w, s, Terminate(w, s, wanted, original, end).0, wanted, end)
    ensures var (t, r) := Terminate(w, s, wanted, original, end); Tells(t.trace, if r.Ok? then r.value else wanted, r)
  {
    TerminateUnfolds(w, s, wanted, original, end);
    VerdictExactly(w, s.active.value, wanted, end.reading);
    if Sound(w, s.active.value, end.reading) && end.cleanup.Ok? {
      ClaimExactly(w, s, Claimed(w, s.active.value, wanted, end.reading), end);
    }
  }

  lemma {:induction false} EndExactly<T>(w: Primitives, s: World, wanted: J.State, answer: T, end: Finish)
    requires s.active.Some? && w.IsTime(s.active.value.binding.notAfter)
    ensures EndsAs(w, s, End(w, s, wanted, answer, end).0, wanted, end)
    ensures Tells(End(w, s, wanted, answer, end).0.trace, answer, End(w, s, wanted, answer, end).1)
  {
    TerminateExactly(w, s, wanted, None, end);
  }

  /** Closing an open session means FAILED, unless the time is over; closing nothing does nothing. */
  lemma {:induction false} CloseExactly(w: Primitives, s: World, end: Finish)
    requires s.active.Some? ==> w.IsTime(s.active.value.binding.notAfter)
    ensures s.active.Some? ==> EndsAs(w, s, Close(w, s, end).0, J.FAILED, end) && Tells(Close(w, s, end).0.trace, (), Close(w, s, end).1)
    ensures s.active.None? ==> Close(w, s, end) == (s, Ok(()))
  {
    if s.active.Some? {
      EndExactly(w, s, J.FAILED, (), end);
    }
  }

  /** Cancelling with the live handle means CANCELLED once the boundary was interrupted, unless the time is over. */
  lemma {:induction false} CancelExactly(w: Primitives, s: World, handle: nat, answer: Answer, end: Finish)
    requires s.active.Some? ==> w.IsTime(s.active.value.binding.notAfter)
    ensures var (t, r) := Cancel(w, s, handle, answer, end);
            var asked := s.(trace := s.trace + [Interrupt(answer.Ok?)]);
            if !Holds(s, handle) then t == s && r.Refused?
            else if answer.Refused? then t == asked && r == answer
            else EndsAs(w, asked, t, J.CANCELLED, end) && Tells(t.trace, (), r)
  {
    if Holds(s, handle) && answer.Ok? {
      EndExactly(w, Saw(s, Interrupt(true)), J.CANCELLED, (), end);
    }
  }

  // ---------------------------------------------------------------- one case

  /** The boundary checked its peer, built the request and executed it. */
  predicate Exchanged(x: Exchange) {
    x.peer.Ok? && x.request.Ok? && x.executed.Ok?
  }

  predicate MayAsk(w: Primitives, a: Active, operation: Case, architecture: string, x: Exchange)
    requires w.IsTime(a.binding.notAfter)
  {
    operation !in a.done && architecture == a.architecture && InTime(w, a, x.before)
  }

  /** A valid receipt arrives in time. */
  predicate Answers(w: Primitives, a: Active, operation: Case, architecture: string, x: Exchange)
    requires w.IsTime(a.binding.notAfter)
  {
    && MayAsk(w, a, operation, architecture, x) && Exchanged(x)
    && InTime(w, Noted(w, a, x.before), x.after) && x.peerAgain.Ok? && x.receipt.Ok?
  }

  /** The calls of the boundary: the first that fails is the last. */
  function Asked(w: Primitives, a: Active, operation: Case, architecture: string, x: Exchange): seq<Event>
    requires w.IsTime(a.binding.notAfter)
  {
    if !MayAsk(w, a, operation, architecture, x) then []
    else if x.peer.Refused? then [PeerCheck(false)]
    else if x.request.Refused? then [PeerCheck(true), Request(false)]
    else if x.executed.Refused? then [PeerCheck(true), Request(true), Execute(operation, false)]
    else if !InTime(w, Noted(w, a, x.before), x.after) then [PeerCheck(true), Request(true), Execute(operation, true)]
    else [PeerCheck(true), Request(true), Execute(operation, true), PeerCheck(x.peerAgain.Ok?)]
  }

  /** The session with the readings made so far. */
  function Later(w: Primitives, a: Active, operation: Case, architecture: string, x: Exchange): Active
    requires w.IsTime(a.binding.notAfter)
  {
    if operation in a.done || architecture != a.architecture then a
    else if !InTime(w, a, x.before) || !Exchanged(x) then Noted(w, a, x.before)
    else Noted(w, Noted(w, a, x.before), x.after)
  }

  /** The world a case leads to before its receipt is taken. */
  function Reached(w: Primitives, s: World, operation: Case, architecture: string, x: Exchange): (t: World)
    requires s.active.Some? && w.IsTime(s.active.value.binding.notAfter)
    ensures t.active.Some? && t.active.value.binding == s.active.value.binding
    ensures t.active.value.done == s.active.value.done && t.active.value.handle == s.active.value.handle
  {
    s.(active := Some(Later(w, s.active.value, operation, architecture, x)),
       trace := s.trace + Asked(w, s.active.value, operation, architecture, x))
  }

  /** The world with the receipt. */
  function With(t: World, operation: Case, receipt: (bool, string)): (u: World)
    requires t.active.Some?
    ensures u.active.Some? && u.active.value.binding == t.active.value.binding
  {
    t.(active := Some(t.active.value.(done := t.active.value.done[operation := receipt.1])),
       trace := t.trace + [Receipt(operation, receipt.0)])
  }

  lemma {:induction false} AnsweredExactly(w: Primitives, s: World, x: Exchange)
    requires s.active.Some? && w.IsTime(s.active.value.binding.notAfter)
    ensures var (t, r) := Answered(w, s, x);
            var a := s.active.value;
            && t == s.(active := Some(Noted(w, a, x.after)),
                       trace := if InTime(w, a, x.after) then s.trace + [PeerCheck(x.peerAgain.Ok?)] else s.trace)
            && (r.Ok? <==> InTime(w, a, x.after) && x.peerAgain.Ok? && x.receipt.Ok?) && (r.Ok? ==> r == x.receipt)
  {
    NowExactly(w, s.active.value, x.after);
  }

  lemma {:induction false} OneByOne(trace: seq<Event>, a: Event, b: Event, c: Event, d: Event)
    ensures (trace + [a]) + [b] == trace + [a, b]
    ensures ((trace + [a]) + [b]) + [c] == trace + [a, b, c]
    ensures (((trace + [a]) + [b]) + [c]) + [d] == trace + [a, b, c, d]
    ensures trace + [] == trace
  {
  }

  lemma {:induction false} AskExactly(w: Primitives, s: World, operation: Case, x: Exchange)
    requires s.active.Some? && w.IsTime(s.active.value.binding.notAfter) && operation !in s.active.value.done
    ensures var (t, r) := Ask(w, s, operation, x);
            var a := s.active.value;
            && t == Reached(w, s, operation, a.architecture, x)
            && (r.Ok? <==> Answers(w, a, operation, a.architecture, x)) && (r.Ok? ==> r == x.receipt)
  {
    var a := s.active.value;
    NowExactly(w, a, x.before);
    OneByOne(s.trace, PeerCheck(x.peer.Ok?), Request(x.request.Ok?), Execute(operation, x.executed.Ok?), PeerCheck(x.peerAgain.Ok?));
    if InTime(w, a, x.before) && Exchanged(x) {
      var t := s.(active := Some(Noted(w, a, x.before)));
      AnsweredExactly(w, Saw(Saw(Saw(t, PeerCheck(true)), Request(true)), Execute(operation, true)), x);
    }
  }

  lemma {:induction false} TryExactly(w: Primitives, s: World, operation: Case, architecture: string, x: Exchange)
    requires s.active.Some? && w.IsTime(s.active.value.binding.notAfter)
    ensures var (t, r) := TryExecute(w, s, operation, architecture, x);
            && t == Reached(w, s, operation, architecture, x)
            && (r.Ok? <==> Answers(w, s.active.value, operation, architecture, x)) && (r.Ok? ==> r == x.receipt)
  {
    if operation !in s.active.value.done && architecture == s.active.value.architecture {
      AskExactly(w, s, operation, x);
    } else {
      assert s.trace + [] == s.trace;
    }
  }

  /** What a valid receipt comes to: a PASS other than the tenth is remembered, the tenth means COMPLETED, any other status FAILED. */
  predicate Concludes(w: Primitives, s: World, operation: Case, receipt: (bool, string), t: World, r: Outcome<bool>, end: Finish)
    requires s.active.Some? && w.IsTime(s.active.value.binding.notAfter)
  {
    var taken := With(s, operation, receipt);
    if receipt.0 && |s.active.value.done| + 1 != 10 then t == taken && r == Ok(true)
    else EndsAs(w, taken, t, if receipt.0 then J.COMPLETED else J.FAILED, end) && Tells(t.trace, receipt.0, r)
  }

  lemma {:induction false} ConcludeExactly(w: Primitives, s: World, operation: Case, receipt: (bool, string), end: Finish)
    requires s.active.Some? && w.IsTime(s.active.value.binding.notAfter) && operation !in s.active.value.done
    ensures var (t, r) := Conclude(w, s, operation, receipt.0, receipt.1, end);
            Concludes(w, s, operation, receipt, t, r, end)
  {
    OneMoreDone(s.active.value.done, operation, receipt.1);
    EndExactly(w, With(s, operation, receipt), if receipt.0 then J.COMPLETED else J.FAILED, receipt.0, end);
  }

  lemma {:induction false} FailExactly(w: Primitives, s: World, reason: string, end: Finish)
    requires s.active.Some? && w.IsTime(s.active.value.binding.notAfter)
    ensures EndsAs(w, s, Fail(w, s, reason, end).0, J.FAILED, end)
  {
    TerminateExactly(w, s, J.FAILED, Some(reason), end);
  }

  /** With the live handle a case comes to its receipt's conclusion; without a valid receipt in time it ends the session as FAILED. */
  lemma {:induction false} ExecuteExactly(w: Primitives, s: World, handle: nat, operation: Case, architecture: string, x: Exchange)
    requires Holds(s, handle) && w.IsTime(s.active.value.binding.notAfter)
    ensures var (t, r) := ExecuteFixed(w, s, handle, operation, architecture, x);
            var reached := Reached(w, s, operation, architecture, x);
            if Answers(w, s.active.value, operation, architecture, x) then Concludes(w, reached, operation, x.receipt.value, t, r, x.end)
            else r.Refused? && EndsAs(w, reached, t, J.FAILED, x.end)
  {
    TryExactly(w, s, operation, architecture, x);
    var (t, r) := TryExecute(w, s, operation, architecture, x);
    if r.Ok? {
      ConcludeExactly(w, t, operation, r.value, x.end);
    } else {
      FailExactly(w, t, r.reason, x.end);
    }
  }

  // ---------------------------------------------------------------- what is certainly recorded

  /** Without a fault a decision is what the transaction comes to. */
  lemma {:induction false} SettledCalmly(w: Primitives, decision: Outcome<J.Row>)
    ensures J.Settled(w, false, decision, NoFault) ==
            match decision
            case Ok(row) => J.Done(Ok(w.hash(J.RowText(row))), false, J.RowText(row) + "\n")
            case Refused(reason) => J.Done(Refused(reason), false, "")
  {
    if decision.Ok? {
      var line := J.RowText(decision.value) + "\n";
      assert line[..|line|] == line;
    }
  }

  /** The row that ends a session as `state`. */
  function LastRow(w: Primitives, s: World, state: J.State, now: string): J.Row
    requires s.active.Some? && J.Rows(s.stored).Some?
  {
    K.Granted(w, J.Rows(s.stored).value, s.active.value.binding, state, now, Some(ReceiptOf(w, state, s.active.value.done)))
  }

  /** A transaction that writes `row` if the file has room for it. */
  predicate WritesIfRoom(w: Primitives, raw: string, row: J.Row, d: J.Done)
    requires J.Rows(raw).Some?
  {
    d == if K.HasRoom(raw, J.Rows(raw).value, row) then J.Done(Ok(w.hash(J.RowText(row))), false, J.RowText(row) + "\n")
         else J.Done(Refused("REPLAY_JOURNAL_FULL"), false, "")
  }

  lemma {:induction false} TimelyIsWritten(w: Primitives, raw: string, a: Active, from: J.State, state: J.State, now: string, receipt: Option<string>)
    requires J.ValidBinding(w, a.binding) && RowKept(w, raw, a.binding, from, a.lastWall) && Timely(w, a, from, state, now)
    requires J.ReceiptFits(state, receipt)
    ensures J.Rows(raw).Some?
    ensures WritesIfRoom(w, raw, K.Granted(w, J.Rows(raw).value, a.binding, state, now, receipt),
                         J.Recorded(w, false, raw, a.binding, state, now, receipt, NoFault))
  {
    TimelyRowsMeetTheRules(w, raw, a, from, state, now, receipt);
    K.RecordExactly(w, raw, a.binding, state, now, receipt);
    SettledCalmly(w, J.Decide(w, raw, a.binding, state, now, receipt));
  }

  lemma {:induction false} SoundClaimIsWritten(w: Primitives, s: World, p: Phase, wanted: J.State, end: Finish)
    requires w.DigestValued() && Amid(w, s, p) && MayEndAs(p, wanted) && !s.poisoned
    requires Sound(w, s.active.value, end.reading) && end.fault == NoFault
    ensures J.Rows(s.stored).Some? && J.ValidBinding(w, s.active.value.binding)
    ensures var state, now := Claimed(w, s.active.value, wanted, end.reading), end.reading.wall.value;
            WritesIfRoom(w, s.stored, LastRow(w, s, state, now),
                         Tried(w, s, s.active.value.binding, state, now, Some(ReceiptOf(w, state, s.active.value.done)), end.fault))
  {
    var a := s.active.value;
    VerdictExactly(w, a, wanted, end.reading);
    VerdictIsTimely(w, a, p, wanted, end.reading);
    var state := Claimed(w, a, wanted, end.reading);
    TimelyIsWritten(w, s.stored, a, RowState(p), state, end.reading.wall.value, Some(ReceiptOf(w, state, a.done)));
  }

  /** The file has gained the row and the call succeeded, or the file is full and the call says so. */
  predicate RecordedIfRoom<T(==)>(s: World, t: World, row: J.Row, answer: T, r: Outcome<T>)
    requires J.Rows(s.stored).Some?
  {
    if K.HasRoom(s.stored, J.Rows(s.stored).value, row) then r == Ok(answer) && t.stored == s.stored + (J.RowText(row) + "\n")
    else r == Refused("REPLAY_JOURNAL_FULL") && t.stored == s.stored
  }

  /** In every reachable session sound clocks, a proven cleanup and sound storage leave a row, unless the file is full. */
  lemma {:induction false} SoundEndIsRecorded<T>(w: Primitives, s: World, p: Phase, wanted: J.State, end: Finish, t: World, answer: T, r: Outcome<T>)
    requires w.DigestValued() && Amid(w, s, p) && MayEndAs(p, wanted) && !s.poisoned && w.IsTime(s.active.value.binding.notAfter)
    requires Sound(w, s.active.value, end.reading) && end.cleanup.Ok? && end.fault == NoFault
    requires EndsAs(w, s, t, wanted, end) && Tells(t.trace, answer, r)
    ensures J.Rows(s.stored).Some?
    ensures RecordedIfRoom(s, t, LastRow(w, s, Claimed(w, s.active.value, wanted, end.reading), end.reading.wall.value), answer, r)
  {
    SoundClaimIsWritten(w, s, p, wanted, end);
    var state, now := Claimed(w, s.active.value, wanted, end.reading), end.reading.wall.value;
    var d := Tried(w, s, s.active.value.binding, state, now, Some(ReceiptOf(w, state, s.active.value.done)), end.fault);
    WrittenIsTold(w, s, t, state, LastRow(w, s, state, now), d, answer, r);
  }

  lemma {:induction false} WrittenIsTold<T>(w: Primitives, s: World, t: World, state: J.State, row: J.Row, d: J.Done, answer: T, r: Outcome<T>)
    requires J.Rows(s.stored).Some? && WritesIfRoom(w, s.stored, row, d)
    requires t == Behind(s.(active := None, trace := s.trace + [Cleanup(true)]), state, d) && Tells(t.trace, answer, r)
    ensures RecordedIfRoom(s, t, row, answer, r)
  {
    assert t.trace[|t.trace| - 1] == Journalled(state, d.outcome, d.wrote);
    assert t.stored == s.stored + d.wrote && s.stored + "" == s.stored;
  }

  /** The session that takes its last receipt. */
  lemma {:induction false} LastReceipt(w: Primitives, s: World, handle: nat, operation: Case, architecture: string, x: Exchange)
    requires Safe(w, s) && Holds(s, handle) && w.IsTime(s.active.value.binding.notAfter)
    requires Answers(w, s.active.value, operation, architecture, x) && |s.active.value.done| == 9 && x.receipt.value.0
    ensures var keys := s.active.value.done.Keys + {operation};
            && Amid(w, With(Reached(w, s, operation, architecture, x), operation, x.receipt.value), Running(keys, keys))
            && MayEndAs(Running(keys, keys), J.COMPLETED)
  {
    TryExactly(w, s, operation, architecture, x);
    TryExecuteAmid(w, s, operation, architecture, x);
    Remembered(w, Reached(w, s, operation, architecture, x), operation, true, x.receipt.value.1);
  }

  /**
    The tenth PASS receipt, with every clock in time, a proven cleanup and sound storage, is recorded as COMPLETED
    with the digest of all ten receipts, and the call succeeds; only a full journal prevents it.
   */
  lemma {:induction false} TenPassesAreCompleted(w: Primitives, s: World, handle: nat, operation: Case, architecture: string, x: Exchange)
    requires w.DigestValued() && Safe(w, s) && Holds(s, handle) && w.IsTime(s.active.value.binding.notAfter) && !s.poisoned
    requires Answers(w, s.active.value, operation, architecture, x) && |s.active.value.done| == 9 && x.receipt.value.0
    requires InTime(w, Later(w, s.active.value, operation, architecture, x), x.end.reading)
    requires x.end.cleanup.Ok? && x.end.fault == NoFault
    ensures var (t, r) := ExecuteFixed(w, s, handle, operation, architecture, x);
            var taken := With(Reached(w, s, operation, architecture, x), operation, x.receipt.value);
            && J.Rows(s.stored).Some?
            && RecordedIfRoom(s, t, LastRow(w, taken, J.COMPLETED, x.end.reading.wall.value), true, r)
  {
    var taken := With(Reached(w, s, operation, architecture, x), operation, x.receipt.value);
    var (t, r) := ExecuteFixed(w, s, handle, operation, architecture, x);
    ExecuteExactly(w, s, handle, operation, architecture, x);
    LastReceipt(w, s, handle, operation, architecture, x);
    var keys := s.active.value.done.Keys + {operation};
    TakenEnds(w, s, operation, architecture, x, t, r);
    SoundEndIsRecorded(w, taken, Running(keys, keys), J.COMPLETED, x.end, t, true, r);
  }

  lemma {:induction false} TakenEnds(w: Primitives, s: World, operation: Case, architecture: string, x: Exchange, t: World, r: Outcome<bool>)
    requires s.active.Some? && w.IsTime(s.active.value.binding.notAfter) && |s.active.value.done| == 9
    requires x.receipt.Ok? && x.receipt.value.0
    requires Concludes(w, Reached(w, s, operation, architecture, x), operation, x.receipt.value, t, r, x.end)
    ensures EndsAs(w, With(Reached(w, s, operation, architecture, x), operation, x.receipt.value), t, J.COMPLETED, x.end)
    ensures Tells(t.trace, true, r)
  {
  }

  // ---------------------------------------------------------------- the document behind the digest

  predicate Ascends(cases: seq<Case>) {
    forall i, j :: 0 <= i < j < |cases| ==> Below(CaseName(cases[i]), CaseName(cases[j]))
  }

  lemma {:induction false} Initials(i: nat)
    requires i < 10
    ensures |SORTED| == 10 && |CaseName(SORTED[i])| > 1 && CaseName(SORTED[i])[0] == "ACDDFHKLPR"[i]
    ensures i == 2 ==> CaseName(SORTED[i])[1] == 'E'
    ensures i == 3 ==> CaseName(SORTED[i])[1] == 'U'
  {
  }

  lemma {:induction false} SortedAscends()
    ensures Ascends(SORTED)
  {
    forall i, j | 0 <= i < j < |SORTED|
      ensures Below(CaseName(SORTED[i]), CaseName(SORTED[j]))
    {
      var a, b := CaseName(SORTED[i]), CaseName(SORTED[j]);
      Initials(i);
      Initials(j);
      BelowAt(a, b, if i == 2 && j == 3 then 1 else 0);
    }
  }

  lemma {:induction false} AllSorted(c: Case)
    ensures c in SORTED
  {
    assert SORTED[0] == ARBITRARY_NON_ROOT_UID && SORTED[1] == CONTROL_CONTAINER_STARTUP && SORTED[2] == DEFAULT_DENY_NETWORK
           && SORTED[3] == DURABLE_RESTART && SORTED[4] == FULL_PREDECESSOR_REGRESSION && SORTED[5] == HOST_ISOLATION_NEGATIVES
           && SORTED[6] == KUBERNETES_SMOKE && SORTED[7] == LINUX_TARGET_BUILD && SORTED[8] == POSTGRES_MIGRATION_AND_RLS
           && SORTED[9] == READ_ONLY_ROOT_FILESYSTEM;
  }

  /** The member of one case. */
  function Named(done: map<Case, string>, c: Case): Member
    requires c in done
  {
    Member(CaseName(c), Str(done[c]))
  }

  ghost predicate IsNamed(done: map<Case, string>, cases: seq<Case>, x: Member) {
    exists c :: c in cases && c in done && x == Named(done, c)
  }

  /** Exactly one member for every receipt kept of some cases. */
  ghost predicate Lists(done: map<Case, string>, cases: seq<Case>, receipts: seq<Member>) {
    && (forall x :: x in receipts ==> IsNamed(done, cases, x))
    && (forall c :: c in cases && c in done ==> Named(done, c) in receipts)
  }

  lemma {:induction false} StillNamed(done: map<Case, string>, cases: seq<Case>, x: Member)
    requires cases != [] && IsNamed(done, cases[1..], x)
    ensures IsNamed(done, cases, x)
  {
  }

  lemma {:induction false} MembersNamed(done: map<Case, string>, cases: seq<Case>)
    ensures Lists(done, cases, DoneMembers(done, cases))
  {
    if cases != [] {
      MembersNamed(done, cases[1..]);
      var rest := DoneMembers(done, cases[1..]);
      forall x | x in DoneMembers(done, cases)
        ensures IsNamed(done, cases, x)
      {
        if x in rest {
          StillNamed(done, cases, x);
        } else {
          assert x == Named(done, cases[0]);
        }
      }
    }
  }

  lemma {:induction false} FirstIsBelow(done: map<Case, string>, cases: seq<Case>, x: Member)
    requires cases != [] && Ascends(cases) && IsNamed(done, cases[1..], x)
    ensures Below(CaseName(cases[0]), x.key)
  {
    var c :| c in cases[1..] && c in done && x == Named(done, c);
    var i :| 0 <= i < |cases[1..]| && cases[1..][i] == c;
    assert cases[i + 1] == c;
  }

  lemma {:induction false} RestAscends(cases: seq<Case>)
    requires cases != [] && Ascends(cases)
    ensures Ascends(cases[1..])
  {
  }

  lemma {:induction false} OneMoreMember(done: map<Case, string>, cases: seq<Case>, rest: seq<Member>)
    requires cases != [] && Ascends(cases) && Normal(Obj(rest)) && rest == DoneMembers(done, cases[1..])
    ensures Normal(Obj((if cases[0] in done then [Named(done, cases[0])] else []) + rest))
  {
    if cases[0] !in done {
      assert [] + rest == rest;
    } else if rest != [] {
      MembersNamed(done, cases[1..]);
      assert rest[0] in rest;
      FirstIsBelow(done, cases, rest[0]);
      Prepended(Named(done, cases[0]), rest);
    } else {
      assert [Named(done, cases[0])] + rest == [Named(done, cases[0])];
    }
  }

  lemma {:induction false} MembersAscend(done: map<Case, string>, cases: seq<Case>)
    requires Ascends(cases)
    ensures Normal(Obj(DoneMembers(done, cases)))
  {
    if cases != [] {
      RestAscends(cases);
      MembersAscend(done, cases[1..]);
      OneMoreMember(done, cases, DoneMembers(done, cases[1..]));
    }
  }

  lemma {:induction false} Prepended(x: Member, rest: seq<Member>)
    requires rest != [] && Normal(Obj(rest)) && Normal(x.value) && Below(x.key, rest[0].key)
    ensures Normal(Obj([x] + rest))
  {
    assert forall k :: 0 < k < |[x] + rest| ==> ([x] + rest)[k] == rest[k - 1];
  }

  /** The digest of a terminal row is that of a document that names the state and every receipt digest kept, and nothing else. */
  lemma {:induction false} OutcomeTells(w: Primitives, state: J.State, done: map<Case, string>) returns (receipts: seq<Member>)
    ensures (forall x :: x in receipts ==> IsNamed(done, SORTED, x)) && (forall c :: c in done ==> Named(done, c) in receipts)
    ensures var outcome := Obj([Member("nativeAcceptance", Bool(false)), Member("receipts", Obj(receipts)), Member("state", Str(J.StateName(state)))]);
            Normal(outcome) && ReceiptOf(w, state, done) == w.hash(Encode(outcome))
  {
    SortedAscends();
    MembersAscend(done, SORTED);
    MembersNamed(done, SORTED);
    receipts := DoneMembers(done, SORTED);
    forall c | c in done
      ensures Named(done, c) in receipts
    {
      AllSorted(c);
    }
    var v := OutcomeJson(state, done);
    assert v.members[0].key == "nativeAcceptance" && v.members[1].key == "receipts" && v.members[2].key == "state";
  }

  // ---------------------------------------------------------------- opening

  /** A session may be opened: a valid binding inside its window, a known architecture, and a finite monotonic time. */
  predicate Admits(w: Primitives, b: J.Binding, architecture: string, r: Reading) {
    && J.ValidBinding(w, b) && r.wall.Ok? && w.IsTime(r.wall.value)
    && w.Instant(b.notBefore) <= w.Instant(r.wall.value) < w.Instant(b.notAfter)
    && (architecture == "amd64" || architecture == "arm64") && r.monotonic.At?
  }

  function Least(a: int, b: int): (r: int)
    ensures r <= a && r <= b && (r == a || r == b)
  {
    if a < b then a else b
  }

  /** The session opened: its deadline is the end of the window or fifteen minutes from now, whichever is first. */
  function Admitted?(w: Primitives, b: J.Binding, architecture: string, r: Reading): Active
    requires Admits(w, b, architecture, r)
  {
    var left := w.Instant(b.notAfter) - w.Instant(r.wall.value);
    Active(b, architecture, r.monotonic.time + Least(left, 15 * 60 * 1000000), w.Instant(r.wall.value), r.monotonic.time, map[], None)
  }

  predicate Established(w: Primitives, a: Active, e: Opening)
    requires w.IsTime(a.binding.notAfter)
  {
    InTime(w, a, e.second) && e.ambient.Ok? && e.establish.Ok? && e.peer.Ok?
  }

  /** The session may be recorded as running. */
  predicate Ready(w: Primitives, a: Active, e: Opening)
    requires w.IsTime(a.binding.notAfter)
  {
    Established(w, a, e) && InTime(w, Noted(w, a, e.second), e.third)
  }

  function Calls(w: Primitives, a: Active, e: Opening): seq<Event>
    requires w.IsTime(a.binding.notAfter)
  {
    if !InTime(w, a, e.second) || e.ambient.Refused? then []
    else if e.establish.Refused? then [Event.Establish(false)]
    else [Event.Establish(true), PeerCheck(e.peer.Ok?)]
  }

  /** The world behind the boundary calls of an opening. */
  function Prepared(w: Primitives, s: World, e: Opening): (t: World)
    requires s.active.Some? && w.IsTime(s.active.value.binding.notAfter)
    ensures t.active.Some? && t.active.value.binding == s.active.value.binding
  {
    var a := s.active.value;
    s.(active := Some(if Established(w, a, e) then Noted(w, Noted(w, a, e.second), e.third) else Noted(w, a, e.second)),
       trace := s.trace + Calls(w, a, e))
  }

  /** The RUNNING row of an opening. */
  function RunningRow(w: Primitives, t: World, e: Opening): J.Done
    requires t.active.Some? && e.third.wall.Ok?
  {
    Tried(w, t, t.active.value.binding, J.RUNNING, e.third.wall.value, None, e.runningFault)
  }

  lemma {:induction false} StartExactly(w: Primitives, s: World, reading: Reading, fault: Fault)
    requires s.active.Some? && w.IsTime(s.active.value.binding.notAfter)
    ensures var (u, r) := StartRunning(w, s, reading, fault);
            var t := s.(active := Some(Noted(w, s.active.value, reading)));
            if !InTime(w, s.active.value, reading) then u == t && r.Refused?
            else
              var d := Tried(w, t, t.active.value.binding, J.RUNNING, reading.wall.value, None, fault);
              if d.outcome.Refused? then u == Behind(t, J.RUNNING, d) && r.Refused?
              else u == Handed(Behind(t, J.RUNNING, d)) && r == Ok(u.serial)
  {
    NowExactly(w, s.active.value, reading);
  }

  lemma {:induction false} TryEstablishExactly(w: Primitives, s: World, e: Opening)
    requires s.active.Some? && w.IsTime(s.active.value.binding.notAfter)
    ensures var (u, r) := TryEstablish(w, s, e);
            var t := Prepared(w, s, e);
            if !Ready(w, s.active.value, e) then u == t && r.Refused?
            else
              var d := RunningRow(w, t, e);
              if d.outcome.Refused? then u == Behind(t, J.RUNNING, d) && r.Refused?
              else u == Handed(Behind(t, J.RUNNING, d)) && r == Ok(u.serial)
  {
    var a := s.active.value;
    NowExactly(w, a, e.second);
    OneByOne(s.trace, Event.Establish(e.establish.Ok?), PeerCheck(e.peer.Ok?), Request(true), Request(true));
    if Established(w, a, e) {
      var t := s.(active := Some(Noted(w, a, e.second)));
      StartExactly(w, Saw(Saw(t, Event.Establish(true)), PeerCheck(true)), e.third, e.runningFault);
    }
  }

  /** What an opening comes to once the reservation is written. */
  predicate OpensAs(w: Primitives, s: World, e: Opening, u: World, r: Outcome<nat>)
    requires s.active.Some? && w.IsTime(s.active.value.binding.notAfter)
  {
    var t := Prepared(w, s, e);
    if !Ready(w, s.active.value, e) then r.Refused? && EndsAs(w, t, u, J.FAILED, e.end)
    else
      var d := RunningRow(w, t, e);
      var v := Behind(t, J.RUNNING, d);
      if d.outcome.Refused? then r.Refused? && EndsAs(w, v, u, J.FAILED, e.end)
      else u == v.(serial := v.serial + 1, active := Some(v.active.value.(handle := Some(v.serial + 1)))) && r == Ok(v.serial + 1)
  }

  lemma {:induction false} StartedExactly(w: Primitives, s: World, e: Opening)
    requires s.active.Some? && w.IsTime(s.active.value.binding.notAfter)
    ensures OpensAs(w, s, e, Started(w, s, e).0, Started(w, s, e).1)
  {
    TryEstablishExactly(w, s, e);
    var (t, r) := TryEstablish(w, s, e);
    if r.Refused? {
      TerminateExactly(w, t, J.FAILED, Some(r.reason), e.end);
    }
  }

  lemma {:induction false} AdmittedExactly(w: Primitives, b: J.Binding, architecture: string, r: Reading)
    requires J.ValidBinding(w, b)
    ensures Admitted(w, b, architecture, r).Ok? <==> Admits(w, b, architecture, r)
    ensures Admits(w, b, architecture, r) ==> Admitted(w, b, architecture, r) == Ok(Admitted?(w, b, architecture, r))
  {
  }

  /**
    An unused machine with an admissible binding tries for the reservation, and with it uses itself up; a session
    runs if and only if then the clocks stay in time, the boundary answers and the journal takes the RUNNING row.
   */
  lemma {:induction false} OpenExactly(w: Primitives, s: World, b: J.Binding, architecture: string, e: Opening)
    ensures var (t, r) := Open(w, s, b, architecture, e);
            if s.used || s.active.Some? || !Admits(w, b, architecture, e.first) then t == s && r.Refused?
            else
              var d := Tried(w, s, b, J.RESERVED, e.first.wall.value, None, e.reserveFault);
              var reserved := Behind(s.(used := true), J.RESERVED, d);
              if d.outcome.Refused? then t == reserved && r == Refused(d.outcome.reason)
              else OpensAs(w, reserved.(active := Some(Admitted?(w, b, architecture, e.first))), e, t, r)
  {
    if !s.used && s.active.None? && J.ValidBinding(w, b) {
      AdmittedExactly(w, b, architecture, e.first);
      if Admits(w, b, architecture, e.first) {
        var d := Tried(w, s, b, J.RESERVED, e.first.wall.value, None, e.reserveFault);
        if d.outcome.Ok? {
          StartedExactly(w, Behind(s.(used := true), J.RESERVED, d).(active := Some(Admitted?(w, b, architecture, e.first))), e);
        }
      }
    }
  }
}
