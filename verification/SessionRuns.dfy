/** What holds in every run of the session machine: any calls in any order, whatever clocks, boundary and storage do. */
module SessionRuns {
  import opened Prelude
  import opened Digests
  import opened Cases
  import opened DurableFile
  import opened SessionSteps
  import J = ReplayJournal

  // ---------------------------------------------------------------- the protocol

  predicate OnlyStorageRefuses(o: Outcome<string>) {
    o.Ok? || o.reason in J.STORAGE_REASONS
  }

  /** The protocol as an automaton over events. */
  datatype Phase =
    | Fresh
    | Reserved
    | Running(tried: set<Case>, passed: set<Case>)
    | Ending(cleaned: bool, ran: bool, results: set<Case>)
    | Closed

  function Advance(p: Phase, e: Event): Option<Phase> {
    match p
    case Fresh =>
      if e.Journalled? && e.state == J.RESERVED then Some(if e.outcome.Ok? then Reserved else Closed) else None
    case Reserved =>
      if e.Establish? || e.PeerCheck? then Some(Reserved)
      else if e.Cleanup? then Some(Ending(e.ok, false, {}))
      else if e.Journalled? && e.state == J.RUNNING && OnlyStorageRefuses(e.outcome) then
        Some(if e.outcome.Ok? then Running({}, {}) else Reserved)
      else None
    case Running(tried, passed) =>
      if e.PeerCheck? || e.Request? || e.Interrupt? then Some(p)
      else if e.Execute? && e.operation !in tried then Some(Running(tried + {e.operation}, passed))
      else if e.Receipt? && e.of in tried && e.of !in passed then
        Some(if e.passed then Running(tried, passed + {e.of}) else p)
      else if e.Cleanup? then Some(Ending(e.ok, true, passed))
      else None
    case Ending(cleaned, ran, results) =>
      if && e.Journalled? && J.Terminal(e.state) && cleaned && OnlyStorageRefuses(e.outcome)
         && (e.state == J.COMPLETED ==> ran && |results| == |CASES|)
      then Some(Closed) else None
    case Closed => None
  }

  function After(trace: seq<Event>): Option<Phase> {
    if trace == [] then Some(Fresh)
    else
      match After(trace[..|trace| - 1])
      case None => None
      case Some(p) => Advance(p, trace[|trace| - 1])
  }

  lemma {:induction false} AfterAppend(trace: seq<Event>, e: Event)
    ensures After(trace + [e]) == match After(trace) case None => None case Some(p) => Advance(p, e)
  {
    assert (trace + [e])[..|trace|] == trace;
  }

  predicate Over(p: Phase) {
    p.Closed? || p.Ending?
  }

  /** The session is established or running: `_terminate` has something to end. */
  predicate Live(p: Phase) {
    p.Reserved? || p.Running?
  }

  function RowState(p: Phase): J.State {
    if p.Reserved? then J.RESERVED else J.RUNNING
  }

  predicate MayEndAs(p: Phase, state: J.State) {
    && state in {J.FAILED, J.CANCELLED, J.COMPLETED}
    && (state == J.COMPLETED ==> p.Running? && |p.passed| == |CASES|)
  }

  // ---------------------------------------------------------------- time rules of machine and journal

  /** The last row of the reserved key is one of `state`, not later than the last time seen. */
  predicate RowKept(w: Primitives, raw: string, b: J.Binding, state: J.State, seen: int) {
    match J.Accepted(w, raw)
    case None => false
    case Some(s) =>
      var key := J.ReplayKey(w, b);
      && key in s.latest
      && s.latest[key].state == state
      && s.latest[key].bindingDigest == J.BindingDigest(w, b)
      && w.IsTime(s.latest[key].observedAt)
      && w.Instant(s.latest[key].observedAt) <= seen
  }

  lemma {:induction false} RowKeptLater(w: Primitives, raw: string, b: J.Binding, state: J.State, seen: int, later: int)
    requires RowKept(w, raw, b, state, seen) && seen <= later
    ensures RowKept(w, raw, b, state, later)
  {
  }

  /** What the machine guarantees before it asks for a row of `state` at `now`. */
  predicate Timely(w: Primitives, a: Active, from: J.State, state: J.State, now: string)
    requires J.ValidBinding(w, a.binding)
  {
    && J.Edge(from, state) && w.IsTime(now) && w.Instant(now) >= a.lastWall
    && (state == J.EXPIRED ==> w.Instant(now) >= w.Instant(a.binding.notAfter))
    && (state in {J.RUNNING, J.COMPLETED} ==> w.Instant(now) < w.Instant(a.binding.notAfter))
  }

  /** Under those guarantees the journal's own rules are met; only a full file can still refuse. */
  lemma {:induction false} TimelyRowsMeetTheRules(w: Primitives, raw: string, a: Active, from: J.State, state: J.State, now: string, receipt: Option<string>)
    requires J.ValidBinding(w, a.binding) && RowKept(w, raw, a.binding, from, a.lastWall) && Timely(w, a, from, state, now)
    requires J.ReceiptFits(state, receipt)
    ensures var d := J.Decide(w, raw, a.binding, state, now, receipt);
            d.Ok? || d == Refused("REPLAY_JOURNAL_FULL")
  {
  }

  /** A successful reading is remembered and lies inside the binding's window. */
  lemma {:induction false} NowIsTimely(w: Primitives, a: Active, r: Reading)
    requires J.ValidBinding(w, a.binding)
    ensures var (b, now) := Now(w, a, r);
            && b == a.(lastWall := b.lastWall, lastMonotonic := b.lastMonotonic)
            && b.lastWall >= a.lastWall && b.lastMonotonic >= a.lastMonotonic
            && (now.Ok? ==> w.IsTime(now.value) && w.Instant(now.value) == b.lastWall && b.lastWall < w.Instant(a.binding.notAfter))
  {
  }

  lemma {:induction false} VerdictIsTimely(w: Primitives, a: Active, p: Phase, state: J.State, r: Reading)
    requires J.ValidBinding(w, a.binding) && Live(p) && MayEndAs(p, state) && Verdict(w, a, state, r).Ok?
    ensures r.wall.Ok? && Timely(w, a, RowState(p), Verdict(w, a, state, r).value, r.wall.value)
    ensures J.Terminal(Verdict(w, a, state, r).value)
    ensures Verdict(w, a, state, r).value == J.COMPLETED ==> state == J.COMPLETED
  {
  }

  lemma {:induction false} RecordedRowIsKept(w: Primitives, poisoned: bool, raw: string, b: J.Binding, state: J.State, now: string,
                                             receipt: Option<string>, fault: Fault, seen: int)
    requires w.DigestValued() && w.IsTime(now) && w.Instant(now) <= seen
    requires J.Recorded(w, poisoned, raw, b, state, now, receipt, fault).outcome.Ok?
    ensures RowKept(w, raw + J.Recorded(w, poisoned, raw, b, state, now, receipt, fault).wrote, b, state, seen)
  {
    J.RecordedIsDurable(w, poisoned, raw, b, state, now, receipt, fault);
  }

  // ---------------------------------------------------------------- the invariant

  /** Unless storage is in doubt, the reservation's last row is one of `state`. */
  predicate Kept(w: Primitives, poisoned: bool, stored: string, b: J.Binding, seen: int, state: J.State) {
    J.ValidBinding(w, b) && (!poisoned ==> RowKept(w, stored, b, state, seen))
  }

  predicate KeptIn(w: Primitives, s: World, a: Active, state: J.State) {
    Kept(w, s.poisoned, s.stored, a.binding, a.lastWall, state)
  }

  /** A session exists and its calls so far have led to phase `p`, from which it can still be ended. */
  predicate Traced(s: World, p: Phase) {
    s.used && s.active.Some? && After(s.trace) == Some(p) && Live(p)
  }

  /** Inside a call. */
  predicate Amid(w: Primitives, s: World, p: Phase) {
    Traced(s, p) && KeptIn(w, s, s.active.value, RowState(p))
  }

  /** The session is over for good. */
  predicate Ended(s: World) {
    s.used && s.active.None? && s.trace != [] && After(s.trace).Some? && Over(After(s.trace).value)
  }

  /** Between calls of a session: a handle is out, and the cases tried are the cases passed. */
  predicate Open?(w: Primitives, s: World) {
    && s.active.Some? && s.active.value.handle == Some(s.serial) && |s.active.value.done| < |CASES|
    && Amid(w, s, Running(s.active.value.done.Keys, s.active.value.done.Keys))
  }

  predicate Safe(w: Primitives, s: World) {
    if !s.used then s.active.None? && s.trace == []
    else if s.active.None? then Ended(s)
    else Open?(w, s)
  }

  // ---------------------------------------------------------------- single events

  lemma {:induction false} SawTraced(s: World, p: Phase, e: Event)
    requires Traced(s, p) && Advance(p, e).Some? && Live(Advance(p, e).value)
    ensures Traced(Saw(s, e), Advance(p, e).value)
  {
    AfterAppend(s.trace, e);
  }

  lemma {:induction false} SawAmid(w: Primitives, s: World, p: Phase, e: Event)
    requires Amid(w, s, p) && Advance(p, e).Some? && Live(Advance(p, e).value)
    requires RowState(Advance(p, e).value) == RowState(p)
    ensures Amid(w, Saw(s, e), Advance(p, e).value)
  {
    SawTraced(s, p, e);
  }

  lemma {:induction false} ClocksAmid(w: Primitives, s: World, p: Phase, r: Reading)
    requires Amid(w, s, p)
    ensures var (t, now) := ReadClocks(w, s, r);
            && Amid(w, t, p) && t == s.(active := t.active)
            && t.active.value == s.active.value.(lastWall := t.active.value.lastWall, lastMonotonic := t.active.value.lastMonotonic)
            && (now.Ok? ==> w.IsTime(now.value) && w.Instant(now.value) == t.active.value.lastWall
                            && t.active.value.lastWall < w.Instant(t.active.value.binding.notAfter))
  {
    NowIsTimely(w, s.active.value, r);
    if !s.poisoned {
      RowKeptLater(w, s.stored, s.active.value.binding, RowState(p), s.active.value.lastWall, Now(w, s.active.value, r).0.lastWall);
    }
  }

  /** A journal call with the timing the machine guarantees: only storage can refuse it. */
  lemma {:induction false} RecordedTimely(w: Primitives, s: World, a: Active, from: J.State, state: J.State, now: string,
                                          receipt: Option<string>, fault: Fault)
    requires KeptIn(w, s, a, from) && Timely(w, a, from, state, now) && J.ReceiptFits(state, receipt)
    ensures var d := J.Recorded(w, s.poisoned, s.stored, a.binding, state, now, receipt, fault);
            OnlyStorageRefuses(d.outcome) && (d.outcome.Refused? ==> d.poisoned || (d.wrote == "" && !s.poisoned))
  {
    if !s.poisoned {
      TimelyRowsMeetTheRules(w, s.stored, a, from, state, now, receipt);
    }
    J.SettledMeans(w, s.poisoned, J.Decide(w, s.stored, a.binding, state, now, receipt), fault);
  }

  lemma {:induction false} RecordKeeps(w: Primitives, s: World, a: Active, from: J.State, state: J.State, now: string,
                                       receipt: Option<string>, fault: Fault)
    requires w.DigestValued() && KeptIn(w, s, a, from) && Timely(w, a, from, state, now)
    requires J.ReceiptFits(state, receipt)
    ensures var (t, out) := Record(w, s, a.binding, state, now, receipt, fault);
            && (out.Ok? && w.Instant(now) == a.lastWall ==> KeptIn(w, t, a, state))
            && (out.Refused? ==> KeptIn(w, t, a, from))
  {
    RecordedTimely(w, s, a, from, state, now, receipt, fault);
    var d := J.Recorded(w, s.poisoned, s.stored, a.binding, state, now, receipt, fault);
    if d.outcome.Ok? && w.Instant(now) == a.lastWall {
      RecordedRowIsKept(w, s.poisoned, s.stored, a.binding, state, now, receipt, fault, a.lastWall);
    } else if d.outcome.Refused? && !d.poisoned {
      assert s.stored + d.wrote == s.stored;
    }
  }

  // ---------------------------------------------------------------- ending a session

  lemma {:induction false} CleanupStep(s: World, p: Phase, ok: bool)
    requires After(s.trace) == Some(p) && Live(p)
    ensures var t := Saw(s.(active := None), Cleanup(ok));
            After(t.trace) == Some(Ending(ok, p.Running?, if p.Running? then p.passed else {})) && t.trace != []
  {
    AfterAppend(s.trace, Cleanup(ok));
  }

  lemma {:induction false} ClaimStep(s: World, p: Phase, verdict: J.State, out: Outcome<string>, wrote: string)
    requires After(s.trace) == Some(p) && p.Ending? && p.cleaned && J.Terminal(verdict) && OnlyStorageRefuses(out)
    requires verdict == J.COMPLETED ==> p.ran && |p.results| == |CASES|
    ensures After(s.trace + [Journalled(verdict, out, wrote)]) == Some(Closed)
  {
    AfterAppend(s.trace, Journalled(verdict, out, wrote));
  }

  lemma {:induction false} ClaimEnds(w: Primitives, t: World, a: Active, p: Phase, state: J.State, end: Finish)
    requires w.DigestValued() && Live(p) && MayEndAs(p, state) && KeptIn(w, t, a, RowState(p))
    requires Verdict(w, a, state, end.reading).Ok? && t.used && t.active.None?
    requires After(t.trace) == Some(Ending(true, p.Running?, if p.Running? then p.passed else {}))
    ensures end.reading.wall.Ok? && Ended(Claim(w, t, a, Verdict(w, a, state, end.reading).value, end).0)
  {
    VerdictIsTimely(w, a, p, state, end.reading);
    var verdict, now := Verdict(w, a, state, end.reading).value, end.reading.wall.value;
    var receipt := Some(w.Digest(OutcomeJson(verdict, a.done)));
    RecordedTimely(w, t, a, RowState(p), verdict, now, receipt, end.fault);
    var d := J.Recorded(w, t.poisoned, t.stored, a.binding, verdict, now, receipt, end.fault);
    ClaimStep(t, After(t.trace).value, verdict, d.outcome, d.wrote);
  }

  lemma {:induction false} TerminateEnds(w: Primitives, s: World, p: Phase, state: J.State, original: Option<string>, end: Finish)
    requires w.DigestValued() && Amid(w, s, p) && MayEndAs(p, state)
    ensures Ended(Terminate(w, s, state, original, end).0)
  {
    var a := s.active.value;
    var verdict := Verdict(w, a, state, end.reading);
    CleanupStep(s, p, end.cleanup.Ok?);
    if Unproven(verdict, end.cleanup).None? {
      ClaimEnds(w, Saw(s.(active := None), Cleanup(true)), a, p, state, end);
    }
  }

  // ---------------------------------------------------------------- opening

  lemma {:induction false} AdmittedIsTimely(w: Primitives, b: J.Binding, architecture: string, r: Reading)
    requires J.ValidBinding(w, b) && Admitted(w, b, architecture, r).Ok?
    ensures var a := Admitted(w, b, architecture, r).value;
            && a.binding == b && a.architecture == architecture && a.done == map[] && a.handle.None?
            && r.wall.Ok? && w.IsTime(r.wall.value) && w.Instant(r.wall.value) == a.lastWall
  {
  }

  lemma {:induction false} ReservedStep(s: World, out: Outcome<string>, wrote: string)
    requires s.trace == []
    ensures After(Saw(s, Journalled(J.RESERVED, out, wrote)).trace) == Some(if out.Ok? then Reserved else Closed)
  {
    AfterAppend([], Journalled(J.RESERVED, out, wrote));
  }

  lemma {:induction false} ReservedKept(w: Primitives, s: World, a: Active, now: string, fault: Fault)
    requires w.DigestValued() && J.ValidBinding(w, a.binding) && w.IsTime(now) && w.Instant(now) == a.lastWall
    requires J.Recorded(w, s.poisoned, s.stored, a.binding, J.RESERVED, now, None, fault).outcome.Ok?
    ensures KeptIn(w, Record(w, s, a.binding, J.RESERVED, now, None, fault).0, a, J.RESERVED)
  {
    RecordedRowIsKept(w, s.poisoned, s.stored, a.binding, J.RESERVED, now, None, fault, a.lastWall);
  }

  lemma {:induction false} ReservedTrace(w: Primitives, s: World, a: Active, now: string, fault: Fault)
    requires s.used && s.active.None? && s.trace == []
    ensures var (t, out) := Record(w, s, a.binding, J.RESERVED, now, None, fault);
            t == s.(poisoned := t.poisoned, stored := t.stored, trace := t.trace) && t.trace != []
            && After(t.trace) == Some(if out.Ok? then Reserved else Closed)
  {
    var d := J.Recorded(w, s.poisoned, s.stored, a.binding, J.RESERVED, now, None, fault);
    ReservedStep(s.(poisoned := d.poisoned, stored := s.stored + d.wrote), d.outcome, d.wrote);
  }

  /** A session just reserved, or a machine used up. */
  lemma {:induction false} ReservedAmid(w: Primitives, s: World, a: Active, now: string, fault: Fault)
    requires w.DigestValued() && J.ValidBinding(w, a.binding) && w.IsTime(now) && w.Instant(now) == a.lastWall
    requires s.used && s.active.None? && s.trace == []
    ensures var (t, out) := Record(w, s, a.binding, J.RESERVED, now, None, fault);
            if out.Ok? then Amid(w, t.(active := Some(a)), Reserved) else Ended(t)
  {
    ReservedTrace(w, s, a, now, fault);
    if Record(w, s, a.binding, J.RESERVED, now, None, fault).1.Ok? {
      ReservedKept(w, s, a, now, fault);
    }
  }

  lemma {:induction false} RunningStep(s: World, out: Outcome<string>, wrote: string)
    requires After(s.trace) == Some(Reserved) && OnlyStorageRefuses(out)
    ensures After(s.trace + [Journalled(J.RUNNING, out, wrote)]) == Some(if out.Ok? then Running({}, {}) else Reserved)
  {
    AfterAppend(s.trace, Journalled(J.RUNNING, out, wrote));
  }

  lemma {:induction false} RunningAmid(w: Primitives, s: World, now: string, fault: Fault)
    requires w.DigestValued() && Amid(w, s, Reserved) && w.IsTime(now)
    requires w.Instant(now) == s.active.value.lastWall < w.Instant(s.active.value.binding.notAfter)
    ensures var (t, out) := Record(w, s, s.active.value.binding, J.RUNNING, now, None, fault);
            Amid(w, t, if out.Ok? then Running({}, {}) else Reserved)
  {
    var a := s.active.value;
    RecordedTimely(w, s, a, J.RESERVED, J.RUNNING, now, None, fault);
    RecordKeeps(w, s, a, J.RESERVED, J.RUNNING, now, None, fault);
    var d := J.Recorded(w, s.poisoned, s.stored, a.binding, J.RUNNING, now, None, fault);
    RunningStep(s, d.outcome, d.wrote);
  }

  lemma {:induction false} StartSafe(w: Primitives, s: World, reading: Reading, fault: Fault)
    requires w.DigestValued() && Amid(w, s, Reserved) && s.active.value.done == map[]
    ensures var (t, r) := StartRunning(w, s, reading, fault);
            if r.Ok? then Open?(w, t) else Amid(w, t, Reserved)
  {
    ClocksAmid(w, s, Reserved, reading);
    var (t, now) := ReadClocks(w, s, reading);
    if now.Ok? {
      RunningAmid(w, t, now.value, fault);
    }
  }

  lemma {:induction false} BothAnswersAmid(w: Primitives, s: World, established: bool, peer: bool)
    requires Amid(w, s, Reserved)
    ensures Amid(w, Saw(s, Event.Establish(established)), Reserved)
    ensures Amid(w, Saw(Saw(s, Event.Establish(established)), PeerCheck(peer)), Reserved)
  {
    SawAmid(w, s, Reserved, Event.Establish(established));
    SawAmid(w, Saw(s, Event.Establish(established)), Reserved, PeerCheck(peer));
  }

  lemma {:induction false} TryEstablishSafe(w: Primitives, s: World, e: Opening)
    requires w.DigestValued() && Amid(w, s, Reserved) && s.active.value.done == map[]
    ensures var (t, r) := TryEstablish(w, s, e);
            if r.Ok? then Open?(w, t) else Amid(w, t, Reserved)
  {
    ClocksAmid(w, s, Reserved, e.second);
    var t := ReadClocks(w, s, e.second).0;
    BothAnswersAmid(w, t, e.establish.Ok?, e.peer.Ok?);
    StartSafe(w, Saw(Saw(t, Event.Establish(e.establish.Ok?)), PeerCheck(e.peer.Ok?)), e.third, e.runningFault);
  }

  lemma {:induction false} StartedSafe(w: Primitives, s: World, e: Opening)
    requires w.DigestValued() && Amid(w, s, Reserved) && s.active.value.done == map[]
    ensures Safe(w, Started(w, s, e).0)
  {
    TryEstablishSafe(w, s, e);
    var (t, r) := TryEstablish(w, s, e);
    if r.Refused? {
      TerminateEnds(w, t, Reserved, J.FAILED, Some(r.reason), e.end);
    }
  }

  lemma {:induction false} OpenSafe(w: Primitives, s: World, b: J.Binding, architecture: string, e: Opening)
    requires w.DigestValued() && Safe(w, s)
    ensures Safe(w, Open(w, s, b, architecture, e).0)
  {
    if J.ValidBinding(w, b) && s.active.None? && !s.used && Admitted(w, b, architecture, e.first).Ok? {
      var a := Admitted(w, b, architecture, e.first).value;
      AdmittedIsTimely(w, b, architecture, e.first);
      ReservedAmid(w, s.(used := true), a, e.first.wall.value, e.reserveFault);
      var (t, out) := Record(w, s.(used := true), a.binding, J.RESERVED, e.first.wall.value, None, e.reserveFault);
      if out.Ok? {
        StartedSafe(w, t.(active := Some(a)), e);
      }
    }
  }

  // ---------------------------------------------------------------- one case

  /** Inside `execute_fixed`: the cases passed are those remembered, and `tried` were executed. */
  predicate AmidCase(w: Primitives, s: World, tried: set<Case>, done: map<Case, string>, handle: Option<nat>) {
    Amid(w, s, Running(tried, done.Keys)) && s.active.value.done == done && s.active.value.handle == handle
  }

  lemma {:induction false} AnsweredAmid(w: Primitives, s: World, tried: set<Case>, x: Exchange)
    requires s.active.Some? && AmidCase(w, s, tried, s.active.value.done, s.active.value.handle)
    ensures var (t, r) := Answered(w, s, x);
            t.serial == s.serial && AmidCase(w, t, tried, s.active.value.done, s.active.value.handle)
  {
    var p := Running(tried, s.active.value.done.Keys);
    ClocksAmid(w, s, p, x.after);
    SawAmid(w, ReadClocks(w, s, x.after).0, p, PeerCheck(x.peerAgain.Ok?));
  }

  /** The two boundary calls before a case is executed. */
  lemma {:induction false} PeerAndRequest(w: Primitives, s: World, p: Phase, peer: bool, request: bool)
    requires Amid(w, s, p) && p.Running?
    ensures Amid(w, Saw(s, PeerCheck(peer)), p) && Amid(w, Saw(Saw(s, PeerCheck(peer)), Request(request)), p)
  {
    SawAmid(w, s, p, PeerCheck(peer));
    SawAmid(w, Saw(s, PeerCheck(peer)), p, Request(request));
  }

  lemma {:induction false} ExecutedAmid(w: Primitives, s: World, operation: Case, ok: bool)
    requires s.active.Some? && operation !in s.active.value.done
    requires AmidCase(w, s, s.active.value.done.Keys, s.active.value.done, s.active.value.handle)
    ensures AmidCase(w, Saw(s, Execute(operation, ok)), s.active.value.done.Keys + {operation}, s.active.value.done, s.active.value.handle)
  {
    SawAmid(w, s, Running(s.active.value.done.Keys, s.active.value.done.Keys), Execute(operation, ok));
  }

  lemma {:induction false} AskAmid(w: Primitives, s: World, operation: Case, x: Exchange)
    requires s.active.Some? && operation !in s.active.value.done
    requires AmidCase(w, s, s.active.value.done.Keys, s.active.value.done, s.active.value.handle)
    ensures var (t, r) := Ask(w, s, operation, x);
            && t.serial == s.serial
            && (AmidCase(w, t, s.active.value.done.Keys + {operation}, s.active.value.done, s.active.value.handle)
                || (r.Refused? && AmidCase(w, t, s.active.value.done.Keys, s.active.value.done, s.active.value.handle)))
  {
    var p := Running(s.active.value.done.Keys, s.active.value.done.Keys);
    ClocksAmid(w, s, p, x.before);
    var t := ReadClocks(w, s, x.before).0;
    PeerAndRequest(w, t, p, x.peer.Ok?, x.request.Ok?);
    var asked := Saw(Saw(t, PeerCheck(x.peer.Ok?)), Request(x.request.Ok?));
    ExecutedAmid(w, asked, operation, x.executed.Ok?);
    AnsweredAmid(w, Saw(asked, Execute(operation, x.executed.Ok?)), s.active.value.done.Keys + {operation}, x);
  }

  lemma {:induction false} TryExecuteAmid(w: Primitives, s: World, operation: Case, architecture: string, x: Exchange)
    requires Open?(w, s)
    ensures var (t, r) := TryExecute(w, s, operation, architecture, x);
            && t.serial == s.serial
            && (r.Ok? ==> operation !in s.active.value.done
                          && AmidCase(w, t, s.active.value.done.Keys + {operation}, s.active.value.done, s.active.value.handle))
            && (r.Refused? ==> Amid(w, t, Running(s.active.value.done.Keys, s.active.value.done.Keys))
                               || Amid(w, t, Running(s.active.value.done.Keys + {operation}, s.active.value.done.Keys)))
  {
    if operation !in s.active.value.done && architecture == s.active.value.architecture {
      AskAmid(w, s, operation, x);
    }
  }

  lemma {:induction false} OneMoreDone(done: map<Case, string>, operation: Case, digest: string)
    requires operation !in done
    ensures done[operation := digest].Keys == done.Keys + {operation} && |done[operation := digest]| == |done| + 1
    ensures |done.Keys + {operation}| == |done| + 1
  {
    assert done[operation := digest].Keys == done.Keys + {operation};
    assert |done[operation := digest]| == |done[operation := digest].Keys| && |done| == |done.Keys|;
  }

  lemma {:induction false} ReceiptAdvances(keys: set<Case>, operation: Case, passed: bool)
    requires operation !in keys
    ensures Advance(Running(keys + {operation}, keys), Receipt(operation, passed))
            == Some(Running(keys + {operation}, if passed then keys + {operation} else keys))
  {
  }

  lemma {:induction false} RememberTraced(s: World, p: Phase, next: Phase, operation: Case, passed: bool, digest: string)
    requires Traced(s, p) && Advance(p, Receipt(operation, passed)) == Some(next) && Live(next)
    ensures Traced(Remember(s, operation, passed, digest), next)
  {
    var done := s.active.value.done[operation := digest];
    SawTraced(s.(active := Some(s.active.value.(done := done))), p, Receipt(operation, passed));
  }

  lemma {:induction false} RememberAmid(w: Primitives, s: World, keys: set<Case>, operation: Case, passed: bool, digest: string)
    requires Amid(w, s, Running(keys + {operation}, keys)) && operation !in keys
    ensures Amid(w, Remember(s, operation, passed, digest), Running(keys + {operation}, if passed then keys + {operation} else keys))
  {
    ReceiptAdvances(keys, operation, passed);
    RememberTraced(s, Running(keys + {operation}, keys), Running(keys + {operation}, if passed then keys + {operation} else keys),
                   operation, passed, digest);
  }

  lemma {:induction false} Remembered(w: Primitives, s: World, operation: Case, passed: bool, digest: string)
    requires s.active.Some? && operation !in s.active.value.done
    requires AmidCase(w, s, s.active.value.done.Keys + {operation}, s.active.value.done, Some(s.serial))
    ensures var t, keys := Remember(s, operation, passed, digest), s.active.value.done.Keys;
            && t.active.value.done.Keys == keys + {operation} && |keys + {operation}| == |s.active.value.done| + 1
            && |t.active.value.done| == |s.active.value.done| + 1
            && t.active.value.handle == Some(t.serial)
            && Amid(w, t, Running(keys + {operation}, if passed then keys + {operation} else keys))
  {
    RememberAmid(w, s, s.active.value.done.Keys, operation, passed, digest);
    OneMoreDone(s.active.value.done, operation, digest);
  }

  lemma {:induction false} ConcludeSafe(w: Primitives, s: World, operation: Case, passed: bool, digest: string, end: Finish)
    requires w.DigestValued() && s.active.Some? && operation !in s.active.value.done && |s.active.value.done| < |CASES|
    requires AmidCase(w, s, s.active.value.done.Keys + {operation}, s.active.value.done, Some(s.serial))
    ensures Safe(w, Conclude(w, s, operation, passed, digest, end).0)
  {
    var keys, t := s.active.value.done.Keys, Remember(s, operation, passed, digest);
    Remembered(w, s, operation, passed, digest);
    if !passed {
      TerminateEnds(w, t, Running(keys + {operation}, keys), J.FAILED, None, end);
    } else if |t.active.value.done| == |CASES| {
      TerminateEnds(w, t, Running(keys + {operation}, keys + {operation}), J.COMPLETED, None, end);
    }
  }

  lemma {:induction false} ExecuteSafe(w: Primitives, s: World, handle: nat, operation: Case, architecture: string, x: Exchange)
    requires w.DigestValued() && Safe(w, s)
    ensures Safe(w, ExecuteFixed(w, s, handle, operation, architecture, x).0)
  {
    if Holds(s, handle) {
      TryExecuteAmid(w, s, operation, architecture, x);
      var (t, r) := TryExecute(w, s, operation, architecture, x);
      if r.Ok? {
        ConcludeSafe(w, t, operation, r.value.0, r.value.1, x.end);
      } else {
        TerminateEnds(w, t, After(t.trace).value, J.FAILED, Some(r.reason), x.end);
      }
    }
  }

  // ---------------------------------------------------------------- the other calls

  lemma {:induction false} EndSafe(w: Primitives, s: World, state: J.State, end: Finish)
    requires w.DigestValued() && Safe(w, s) && s.active.Some? && state in {J.FAILED, J.CANCELLED}
    ensures Ended(Terminate(w, s, state, None, end).0)
  {
    TerminateEnds(w, s, After(s.trace).value, state, None, end);
  }

  lemma {:induction false} InterruptSafe(w: Primitives, s: World, handle: nat, answer: Answer)
    requires Safe(w, s)
    ensures Safe(w, Interrupted(s, handle, answer).0)
  {
    if Holds(s, handle) {
      SawAmid(w, s, After(s.trace).value, Interrupt(answer.Ok?));
    }
  }

  lemma {:induction false} OthersSafe(w: Primitives, s: World, more: string)
    requires Safe(w, s)
    ensures Safe(w, OthersAppend(w, s, more))
  {
  }

  lemma {:induction false} NextSafe(w: Primitives, s: World, call: Call)
    requires w.DigestValued() && Safe(w, s)
    ensures Safe(w, Next(w, s, call))
  {
    match call
    case DoOpen(binding, architecture, e) => OpenSafe(w, s, binding, architecture, e);
    case DoExecute(handle, operation, architecture, x) => ExecuteSafe(w, s, handle, operation, architecture, x);
    case DoInterrupt(handle, answer) => InterruptSafe(w, s, handle, answer);
    case DoCancelHeld(end) => if s.active.Some? { EndSafe(w, s, J.CANCELLED, end); }
    case DoClose(end) => if s.active.Some? { EndSafe(w, s, J.FAILED, end); }
    case DoOthers(more) => OthersSafe(w, s, more);
  }

  /** The invariant holds in every run. */
  lemma {:induction false} RunSafe(w: Primitives, poisoned: bool, stored: string, calls: seq<Call>)
    requires w.DigestValued()
    ensures Safe(w, Run(w, New(poisoned, stored), calls))
    ensures After(Run(w, New(poisoned, stored), calls).trace).Some?
  {
    if calls != [] {
      RunSafe(w, poisoned, stored, calls[..|calls| - 1]);
      NextSafe(w, Run(w, New(poisoned, stored), calls[..|calls| - 1]), calls[|calls| - 1]);
    }
  }

  // ---------------------------------------------------------------- what one call means

  /** The last event is a row the journal took. */
  predicate RowWritten(trace: seq<Event>) {
    trace != [] && trace[|trace| - 1].Journalled? && trace[|trace| - 1].outcome.Ok?
  }

  /** The same session, later. */
  predicate SameSession(s: World, t: World) {
    && s.active.Some? && t.active.Some? && t.used == s.used && t.serial == s.serial
    && t.active.value.binding == s.active.value.binding && t.active.value.architecture == s.active.value.architecture
    && t.active.value.done == s.active.value.done && t.active.value.handle == s.active.value.handle
  }

  lemma {:induction false} ClocksSame(w: Primitives, s: World, r: Reading)
    requires s.active.Some?
    ensures SameSession(s, ReadClocks(w, s, r).0)
  {
  }

  lemma {:induction false} SeenLast(trace: seq<Event>, e: Event)
    ensures RowWritten(trace + [e]) <==> e.Journalled? && e.outcome.Ok?
  {
  }

  lemma {:induction false} ClaimMeans(w: Primitives, t: World, a: Active, verdict: J.State, end: Finish)
    requires end.reading.wall.Ok?
    ensures var (u, r) := Claim(w, t, a, verdict, end);
            && u.active == t.active && u.serial == t.serial && u.used == t.used && t.trace <= u.trace
            && (r.Ok? <==> RowWritten(u.trace)) && (r.Ok? ==> r.value == verdict == u.trace[|u.trace| - 1].state)
  {
    var receipt := Some(w.Digest(OutcomeJson(verdict, a.done)));
    var d := J.Recorded(w, t.poisoned, t.stored, a.binding, verdict, end.reading.wall.value, receipt, end.fault);
    SeenLast(t.trace, Journalled(verdict, d.outcome, d.wrote));
  }

  /** The session is gone whatever happens; a row is written only with sound clocks and a proven cleanup, and success is that row. */
  lemma {:induction false} TerminateMeans(w: Primitives, s: World, state: J.State, original: Option<string>, end: Finish)
    requires s.active.Some?
    ensures var (t, r) := Terminate(w, s, state, original, end);
            && t.active.None? && t.serial == s.serial && t.used == s.used && s.trace + [Cleanup(end.cleanup.Ok?)] <= t.trace
            && (r.Ok? <==> RowWritten(t.trace))
            && (r.Ok? ==> r == Verdict(w, s.active.value, state, end.reading) && end.cleanup.Ok? && t.trace[|t.trace| - 1].state == r.value)
            && (t.trace != s.trace + [Cleanup(end.cleanup.Ok?)] ==> end.cleanup.Ok? && Verdict(w, s.active.value, state, end.reading).Ok?)
  {
    var verdict, t := Verdict(w, s.active.value, state, end.reading), Saw(s.(active := None), Cleanup(end.cleanup.Ok?));
    SeenLast(s.trace, Cleanup(end.cleanup.Ok?));
    if Unproven(verdict, end.cleanup).None? {
      ClaimMeans(w, t, s.active.value, verdict.value, end);
    }
  }

  /** A used machine refuses without effect; success is a running session with a new handle; every failure leaves no session. */
  lemma {:induction false} OpenMeans(w: Primitives, s: World, b: J.Binding, architecture: string, e: Opening)
    ensures var (t, r) := Open(w, s, b, architecture, e);
            && (s.used || s.active.Some? ==> r.Refused? && t == s)
            && (r.Refused? && s.active.None? ==> t.active.None?)
            && (r.Ok? ==> t.used && Holds(t, r.value) && t.serial == r.value == s.serial + 1
                          && t.active.value.binding == b && t.active.value.architecture == architecture && t.active.value.done == map[])
  {
    if J.ValidBinding(w, b) && s.active.None? && !s.used && Admitted(w, b, architecture, e.first).Ok? {
      var a := Admitted(w, b, architecture, e.first).value;
      var (t, out) := Record(w, s.(used := true), a.binding, J.RESERVED, e.first.wall.value, None, e.reserveFault);
      AdmittedIsTimely(w, b, architecture, e.first);
      if out.Ok? {
        StartedMeans(w, t.(active := Some(a)), e);
      }
    }
  }

  /** A running session with a new handle. */
  predicate Handed?(s: World, t: World, handle: nat) {
    && s.active.Some? && t.used == s.used && Holds(t, handle) && t.serial == handle == s.serial + 1
    && t.active.value.binding == s.active.value.binding && t.active.value.architecture == s.active.value.architecture
    && t.active.value.done == s.active.value.done
  }

  lemma {:induction false} RecordRunningMeans(w: Primitives, s: World, now: string, fault: Fault)
    requires s.active.Some?
    ensures var (t, r) := RecordRunning(w, s, now, fault); r.Ok? ==> Handed?(s, t, r.value)
  {
  }

  lemma {:induction false} StartMeans(w: Primitives, s: World, reading: Reading, fault: Fault)
    requires s.active.Some?
    ensures var (t, r) := StartRunning(w, s, reading, fault); r.Ok? ==> Handed?(s, t, r.value)
  {
    ClocksSame(w, s, reading);
    var (t, now) := ReadClocks(w, s, reading);
    if now.Ok? {
      RecordRunningMeans(w, t, now.value, fault);
    }
  }

  lemma {:induction false} TryEstablishMeans(w: Primitives, s: World, e: Opening)
    requires s.active.Some?
    ensures var (t, r) := TryEstablish(w, s, e); r.Ok? ==> Handed?(s, t, r.value)
  {
    ClocksSame(w, s, e.second);
    var t := ReadClocks(w, s, e.second).0;
    StartMeans(w, Saw(Saw(t, Event.Establish(e.establish.Ok?)), PeerCheck(e.peer.Ok?)), e.third, e.runningFault);
  }

  lemma {:induction false} StartedMeans(w: Primitives, s: World, e: Opening)
    requires s.active.Some?
    ensures var (t, r) := Started(w, s, e); if r.Ok? then Handed?(s, t, r.value) else t.active.None?
  {
    TryEstablishMeans(w, s, e);
    var (t, r) := TryEstablish(w, s, e);
    if r.Refused? {
      TerminateMeans(w, t, J.FAILED, Some(r.reason), e.end);
    }
  }

  /** The world after a receipt was taken. */
  predicate Taken(s: World, t: World, handle: nat, operation: Case, receipt: (bool, string)) {
    && s.active.Some? && Holds(t, handle) && receipt.0 && operation !in s.active.value.done
    && t.active.value.done == s.active.value.done[operation := receipt.1]
  }

  lemma {:induction false} AnsweredMeans(w: Primitives, s: World, x: Exchange)
    requires s.active.Some?
    ensures var (t, r) := Answered(w, s, x); SameSession(s, t) && (r.Ok? ==> r == x.receipt)
  {
    ClocksSame(w, s, x.after);
  }

  lemma {:induction false} TryMeans(w: Primitives, s: World, operation: Case, architecture: string, x: Exchange)
    requires s.active.Some?
    ensures var (t, r) := TryExecute(w, s, operation, architecture, x);
            SameSession(s, t) && (r.Ok? ==> r == x.receipt && operation !in s.active.value.done)
  {
    ClocksSame(w, s, x.before);
    var asked := Saw(Saw(ReadClocks(w, s, x.before).0, PeerCheck(x.peer.Ok?)), Request(x.request.Ok?));
    AnsweredMeans(w, Saw(asked, Execute(operation, x.executed.Ok?)), x);
  }

  lemma {:induction false} ConcludeMeans(w: Primitives, s: World, handle: nat, operation: Case, passed: bool, digest: string, end: Finish)
    requires Holds(s, handle) && operation !in s.active.value.done
    ensures var (t, r) := Conclude(w, s, operation, passed, digest, end);
            && (t.active.Some? ==> r == Ok(true) && Taken(s, t, handle, operation, (passed, digest)))
            && (t.active.None? && r.Ok? ==> RowWritten(t.trace) && r.value == passed)
  {
    TerminateMeans(w, Remember(s, operation, passed, digest), if passed then J.COMPLETED else J.FAILED, None, end);
  }

  /** Without the live handle nothing happens; otherwise exactly this case is added on a PASS receipt, or the session is over. */
  lemma {:induction false} ExecuteMeans(w: Primitives, s: World, handle: nat, operation: Case, architecture: string, x: Exchange)
    ensures var (t, r) := ExecuteFixed(w, s, handle, operation, architecture, x);
            && (!Holds(s, handle) ==> r.Refused? && t == s)
            && (Holds(s, handle) && t.active.Some? ==> r == Ok(true) && x.receipt.Ok? && Taken(s, t, handle, operation, x.receipt.value))
            && (Holds(s, handle) && t.active.None? && r.Ok? ==> RowWritten(t.trace) && x.receipt.Ok? && r.value == x.receipt.value.0)
  {
    if Holds(s, handle) {
      TryMeans(w, s, operation, architecture, x);
      var (t, r) := TryExecute(w, s, operation, architecture, x);
      if r.Ok? {
        ConcludeMeans(w, t, handle, operation, r.value.0, r.value.1, x.end);
      } else {
        TerminateMeans(w, t, J.FAILED, Some(r.reason), x.end);
      }
    }
  }

  /** Only the live handle cancels; once the boundary was interrupted the session is gone, and success is a written row. */
  lemma {:induction false} CancelMeans(w: Primitives, s: World, handle: nat, answer: Answer, end: Finish)
    ensures var (t, r) := Cancel(w, s, handle, answer, end);
            && (!Holds(s, handle) ==> r.Refused? && t == s)
            && (Holds(s, handle) && answer.Refused? ==> r == answer && t == Saw(s, Interrupt(false)))
            && (Holds(s, handle) && answer.Ok? ==> t.active.None? && (r.Ok? <==> RowWritten(t.trace)))
  {
    if Holds(s, handle) && answer.Ok? {
      TerminateMeans(w, Saw(s, Interrupt(true)), J.CANCELLED, None, end);
    }
  }

  /** Closing leaves no session; for an open one success is a written row, and otherwise nothing happens. */
  lemma {:induction false} CloseMeans(w: Primitives, s: World, end: Finish)
    ensures var (t, r) := Close(w, s, end);
            && t.active.None? && t.used == s.used
            && (s.active.None? ==> r.Ok? && t == s)
            && (s.active.Some? ==> (r.Ok? <==> RowWritten(t.trace)))
  {
    if s.active.Some? {
      TerminateMeans(w, s, J.FAILED, None, end);
    }
  }

  // ---------------------------------------------------------------- what the automaton says of a trace

  lemma {:induction false} AfterPrefix(trace: seq<Event>, k: nat)
    requires k <= |trace| && After(trace).Some?
    ensures After(trace[..k]).Some?
  {
    if k == |trace| {
      assert trace[..k] == trace;
    } else {
      AfterPrefix(trace[..|trace| - 1], k);
      assert trace[..|trace| - 1][..k] == trace[..k];
    }
  }

  /** One more event of an accepted trace, seen from its prefix. */
  lemma {:induction false} AfterStep(trace: seq<Event>, k: nat)
    requires k < |trace| && After(trace).Some?
    ensures After(trace[..k]).Some? && After(trace[..k + 1]) == Advance(After(trace[..k]).value, trace[k])
    ensures After(trace[..k + 1]).Some?
  {
    AfterPrefix(trace, k + 1);
    assert trace[..k + 1][..k] == trace[..k];
  }

  lemma {:induction false} NotFreshAgain(trace: seq<Event>)
    requires After(trace).Some? && trace != []
    ensures !After(trace).value.Fresh?
  {
  }

  lemma {:induction false} FirstIsReservation(trace: seq<Event>)
    requires After(trace).Some? && trace != []
    ensures trace[0].Journalled? && trace[0].state == J.RESERVED
    ensures trace[0].outcome.Refused? ==> |trace| == 1
    ensures forall i :: 0 < i < |trace| && trace[i].Journalled? ==> trace[i].state != J.RESERVED
  {
    var before := trace[..|trace| - 1];
    if before != [] {
      FirstIsReservation(before);
      NotFreshAgain(before);
      AfterStep(trace, 0);
      AfterStep(trace, 1);
    }
  }

  /** `tried` and `passed` are exactly the cases executed and the cases with a PASS receipt. */
  lemma {:induction false} RunningRecords(trace: seq<Event>)
    requires After(trace).Some?
    ensures After(trace).value.Running? ==>
              && (forall i :: 0 <= i < |trace| && trace[i].Execute? ==> trace[i].operation in After(trace).value.tried)
              && (forall c :: c in After(trace).value.passed ==> Receipt(c, true) in trace)
    ensures (After(trace).value.Fresh? || After(trace).value.Reserved?) ==>
              forall i :: 0 <= i < |trace| ==> !trace[i].Execute? && !trace[i].Receipt? && !trace[i].Cleanup?
    ensures After(trace).value.Ending? ==>
              && (forall c :: c in After(trace).value.results ==> Receipt(c, true) in trace)
              && Cleanup(After(trace).value.cleaned) in trace
              && |trace| > 0 && trace[|trace| - 1].Cleanup?
  {
    if trace != [] {
      RunningRecords(trace[..|trace| - 1]);
      var before := trace[..|trace| - 1];
      assert forall e :: e in before ==> e in trace;
      assert forall i :: 0 <= i < |before| ==> trace[i] == before[i];
    }
  }

  lemma {:induction false} CleanupBefore(trace: seq<Event>, i: nat)
    requires After(trace).Some? && i < |trace| && After(trace[..i]).Some?
    requires After(trace[..i]).value.Ending? && After(trace[..i]).value.cleaned
    ensures i > 0 && trace[i - 1] == Cleanup(true)
  {
    AfterStep(trace, i - 1);
  }

  lemma {:induction false} ClosedIsLast(trace: seq<Event>, k: nat)
    requires k <= |trace| && After(trace).Some? && After(trace[..k]) == Some(Closed)
    ensures k == |trace|
  {
    if k < |trace| {
      AfterStep(trace, k);
    }
  }

  lemma {:induction false} TriedOnce(trace: seq<Event>, i: nat, j: nat)
    requires After(trace).Some? && i < j < |trace| && trace[i].Execute? && trace[j].Execute?
    ensures trace[i].operation != trace[j].operation
  {
    AfterStep(trace, j);
    RunningRecords(trace[..j]);
    assert trace[..j][i] == trace[i];
  }

  lemma {:induction false} TerminalIsLast(trace: seq<Event>, i: nat)
    requires After(trace).Some? && i < |trace| && trace[i].Journalled? && J.Terminal(trace[i].state)
    ensures i == |trace| - 1 && i > 0 && trace[i - 1] == Cleanup(true)
  {
    AfterStep(trace, i);
    ClosedIsLast(trace, i + 1);
    CleanupBefore(trace, i);
  }

  lemma {:induction false} TenPassesBefore(trace: seq<Event>, i: nat, c: Case)
    requires After(trace).Some? && i < |trace| && trace[i].Journalled? && trace[i].state == J.COMPLETED
    ensures Receipt(c, true) in trace[..i]
  {
    AfterStep(trace, i);
    RunningRecords(trace[..i]);
    TenAreAll(After(trace[..i]).value.results);
    EveryCase(c);
  }

  lemma {:induction false} LaterRowsTimely(trace: seq<Event>, i: nat)
    requires After(trace).Some? && 0 < i < |trace| && trace[i].Journalled?
    ensures OnlyStorageRefuses(trace[i].outcome)
  {
    AfterStep(trace, i);
    NotFreshAgain(trace[..i]);
  }

  // ---------------------------------------------------------------- theorems about every run

  /** The events of a run of a new machine over some journal file. */
  function TraceOf(w: Primitives, poisoned: bool, stored: string, calls: seq<Call>): seq<Event> {
    Run(w, New(poisoned, stored), calls).trace
  }

  /** Every run follows the protocol. */
  lemma {:induction false} RunFollowsProtocol(w: Primitives, poisoned: bool, stored: string, calls: seq<Call>)
    requires w.DigestValued()
    ensures After(TraceOf(w, poisoned, stored, calls)).Some?
  {
    RunSafe(w, poisoned, stored, calls);
  }

  /** Nothing touches the boundary, and no case runs, before the one reservation that opens a run; a refused one ends it. */
  lemma {:induction false} ReservationComesFirst(w: Primitives, poisoned: bool, stored: string, calls: seq<Call>)
    requires w.DigestValued() && TraceOf(w, poisoned, stored, calls) != []
    ensures var trace := TraceOf(w, poisoned, stored, calls);
            && trace[0].Journalled? && trace[0].state == J.RESERVED
            && (trace[0].outcome.Refused? ==> |trace| == 1)
            && (forall i :: 0 < i < |trace| && trace[i].Journalled? ==> trace[i].state != J.RESERVED)
  {
    RunFollowsProtocol(w, poisoned, stored, calls);
    FirstIsReservation(TraceOf(w, poisoned, stored, calls));
  }

  /** No run executes a case twice. */
  lemma {:induction false} EachCaseAtMostOnce(w: Primitives, poisoned: bool, stored: string, calls: seq<Call>, i: nat, j: nat)
    requires w.DigestValued() && i < j < |TraceOf(w, poisoned, stored, calls)|
    requires TraceOf(w, poisoned, stored, calls)[i].Execute? && TraceOf(w, poisoned, stored, calls)[j].Execute?
    ensures TraceOf(w, poisoned, stored, calls)[i].operation != TraceOf(w, poisoned, stored, calls)[j].operation
  {
    RunFollowsProtocol(w, poisoned, stored, calls);
    TriedOnce(TraceOf(w, poisoned, stored, calls), i, j);
  }

  /** A terminal row is the last event of a run, so there is at most one, and it follows a proven cleanup. */
  lemma {:induction false} TerminalRowIsLast(w: Primitives, poisoned: bool, stored: string, calls: seq<Call>, i: nat)
    requires w.DigestValued() && i < |TraceOf(w, poisoned, stored, calls)|
    requires var e := TraceOf(w, poisoned, stored, calls)[i]; e.Journalled? && J.Terminal(e.state)
    ensures var trace := TraceOf(w, poisoned, stored, calls);
            i == |trace| - 1 && i > 0 && trace[i - 1] == Cleanup(true)
  {
    RunFollowsProtocol(w, poisoned, stored, calls);
    TerminalIsLast(TraceOf(w, poisoned, stored, calls), i);
  }

  /** COMPLETED is attempted only when each of the ten cases has a PASS receipt. */
  lemma {:induction false} CompletedMeansTenPasses(w: Primitives, poisoned: bool, stored: string, calls: seq<Call>, i: nat, c: Case)
    requires w.DigestValued() && i < |TraceOf(w, poisoned, stored, calls)|
    requires var e := TraceOf(w, poisoned, stored, calls)[i]; e.Journalled? && e.state == J.COMPLETED
    ensures Receipt(c, true) in TraceOf(w, poisoned, stored, calls)[..i]
  {
    RunFollowsProtocol(w, poisoned, stored, calls);
    TenPassesBefore(TraceOf(w, poisoned, stored, calls), i, c);
  }

  /** After the reservation the journal refuses only for storage reasons: its transition and time rules are always met. */
  lemma {:induction false} RulesAlwaysMet(w: Primitives, poisoned: bool, stored: string, calls: seq<Call>, i: nat)
    requires w.DigestValued() && 0 < i < |TraceOf(w, poisoned, stored, calls)|
    requires TraceOf(w, poisoned, stored, calls)[i].Journalled?
    ensures OnlyStorageRefuses(TraceOf(w, poisoned, stored, calls)[i].outcome)
  {
    RunFollowsProtocol(w, poisoned, stored, calls);
    LaterRowsTimely(TraceOf(w, poisoned, stored, calls), i);
  }

  // ---------------------------------------------------------------- nothing happens unseen

  /** The bytes that the journal calls among some events added to the file. */
  function Bytes(events: seq<Event>): string {
    if events == [] then "" else Bytes(events[..|events| - 1]) + (if events[|events| - 1].Journalled? then events[|events| - 1].wrote else "")
  }

  lemma {:induction false} BytesJoin(a: seq<Event>, b: seq<Event>)
    ensures Bytes(a + b) == Bytes(a) + Bytes(b)
  {
    if b == [] {
      assert a + b == a;
    } else {
      var c := b[..|b| - 1];
      BytesJoin(a, c);
      assert (a + b)[..|a + b| - 1] == a + c;
    }
  }

  /** From one state to a later one: only new events, and only their bytes in the file. */
  predicate Grows(s: World, t: World) {
    s.trace <= t.trace && t.stored == s.stored + Bytes(t.trace[|s.trace|..]) && (s.used ==> t.used)
  }

  lemma {:induction false} GrowsOn(s: World, t: World, u: World)
    requires Grows(s, t) && Grows(t, u)
    ensures Grows(s, u)
  {
    NewEvents(s.trace, t.trace, u.trace);
    var first, second := t.trace[|s.trace|..], u.trace[|t.trace|..];
    BytesJoin(first, second);
    Joined(s.stored, Bytes(first), Bytes(second));
  }

  lemma {:induction false} Joined(a: string, b: string, c: string)
    ensures (a + b) + c == a + (b + c)
  {
  }

  lemma {:induction false} NewEvents(a: seq<Event>, b: seq<Event>, c: seq<Event>)
    requires a <= b <= c
    ensures a <= c && c[|a|..] == b[|a|..] + c[|b|..]
  {
  }

  lemma {:induction false} SameGrows(s: World, t: World)
    requires t.trace == s.trace && t.stored == s.stored && (s.used ==> t.used)
    ensures Grows(s, t)
  {
  }

  lemma {:induction false} SawGrows(s: World, t: World, e: Event)
    requires t.trace == s.trace + [e] && t.stored == s.stored + (if e.Journalled? then e.wrote else "") && (s.used ==> t.used)
    ensures Grows(s, t)
  {
    assert t.trace[|s.trace|..] == [e];
    assert [e][..0] == [];
  }

  lemma {:induction false} RecordGrows(w: Primitives, s: World, b: J.Binding, state: J.State, now: string, receipt: Option<string>, fault: Fault)
    ensures Grows(s, Record(w, s, b, state, now, receipt, fault).0)
  {
    var d := J.Recorded(w, s.poisoned, s.stored, b, state, now, receipt, fault);
    SawGrows(s, Record(w, s, b, state, now, receipt, fault).0, Journalled(state, d.outcome, d.wrote));
  }

  lemma {:induction false} TerminateGrows(w: Primitives, s: World, state: J.State, original: Option<string>, end: Finish)
    requires s.active.Some?
    ensures Grows(s, Terminate(w, s, state, original, end).0)
    ensures s.trace < Terminate(w, s, state, original, end).0.trace && Terminate(w, s, state, original, end).0.active.None?
  {
    var verdict, t := Verdict(w, s.active.value, state, end.reading), Saw(s.(active := None), Cleanup(end.cleanup.Ok?));
    SawGrows(s, t, Cleanup(end.cleanup.Ok?));
    if Unproven(verdict, end.cleanup).None? {
      var receipt := Some(w.Digest(OutcomeJson(verdict.value, s.active.value.done)));
      RecordGrows(w, t, s.active.value.binding, verdict.value, end.reading.wall.value, receipt, end.fault);
      GrowsOn(s, t, Claim(w, t, s.active.value, verdict.value, end).0);
    }
  }

  lemma {:induction false} RecordRunningGrows(w: Primitives, s: World, now: string, fault: Fault)
    requires s.active.Some?
    ensures Grows(s, RecordRunning(w, s, now, fault).0)
  {
    RecordGrows(w, s, s.active.value.binding, J.RUNNING, now, None, fault);
    var t := Record(w, s, s.active.value.binding, J.RUNNING, now, None, fault).0;
    SameGrows(t, RecordRunning(w, s, now, fault).0);
    GrowsOn(s, t, RecordRunning(w, s, now, fault).0);
  }

  lemma {:induction false} StartGrows(w: Primitives, s: World, reading: Reading, fault: Fault)
    requires s.active.Some?
    ensures Grows(s, StartRunning(w, s, reading, fault).0)
  {
    var (t, now) := ReadClocks(w, s, reading);
    SameGrows(s, t);
    if now.Ok? {
      RecordRunningGrows(w, t, now.value, fault);
      GrowsOn(s, t, RecordRunning(w, t, now.value, fault).0);
    }
  }

  lemma {:induction false} TryEstablishGrows(w: Primitives, s: World, e: Opening)
    requires s.active.Some?
    ensures Grows(s, TryEstablish(w, s, e).0)
  {
    var t0 := ReadClocks(w, s, e.second).0;
    var t1 := Saw(t0, Event.Establish(e.establish.Ok?));
    var t2 := Saw(t1, PeerCheck(e.peer.Ok?));
    SameGrows(s, t0);
    SawGrows(s, t1, Event.Establish(e.establish.Ok?));
    SawGrows(t1, t2, PeerCheck(e.peer.Ok?));
    GrowsOn(s, t1, t2);
    StartGrows(w, t2, e.third, e.runningFault);
    GrowsOn(s, t2, StartRunning(w, t2, e.third, e.runningFault).0);
  }

  lemma {:induction false} StartedGrows(w: Primitives, s: World, e: Opening)
    requires s.active.Some?
    ensures Grows(s, Started(w, s, e).0)
  {
    TryEstablishGrows(w, s, e);
    var (t, r) := TryEstablish(w, s, e);
    if r.Refused? {
      TerminateGrows(w, t, J.FAILED, Some(r.reason), e.end);
      GrowsOn(s, t, Started(w, s, e).0);
    }
  }

  lemma {:induction false} ReserveGrows(w: Primitives, s: World, a: Active, e: Opening)
    requires e.first.wall.Ok?
    ensures Grows(s, Reserve(w, s, a, e).0)
  {
    var used := s.(used := true);
    SameGrows(s, used);
    RecordGrows(w, used, a.binding, J.RESERVED, e.first.wall.value, None, e.reserveFault);
    var (t, out) := Record(w, used, a.binding, J.RESERVED, e.first.wall.value, None, e.reserveFault);
    GrowsOn(s, used, t);
    if out.Ok? {
      SameGrows(t, t.(active := Some(a)));
      StartedGrows(w, t.(active := Some(a)), e);
      GrowsOn(s, t, t.(active := Some(a)));
      GrowsOn(s, t.(active := Some(a)), Started(w, t.(active := Some(a)), e).0);
    }
  }

  lemma {:induction false} OpenGrows(w: Primitives, s: World, b: J.Binding, architecture: string, e: Opening)
    ensures Grows(s, Open(w, s, b, architecture, e).0)
  {
    SameGrows(s, s);
    if J.ValidBinding(w, b) && s.active.None? && !s.used && Admitted(w, b, architecture, e.first).Ok? {
      ReserveGrows(w, s, Admitted(w, b, architecture, e.first).value, e);
    }
  }

  lemma {:induction false} AnsweredGrows(w: Primitives, s: World, x: Exchange)
    requires s.active.Some?
    ensures Grows(s, Answered(w, s, x).0)
  {
    var t := ReadClocks(w, s, x.after).0;
    SameGrows(s, t);
    SawGrows(s, Saw(t, PeerCheck(x.peerAgain.Ok?)), PeerCheck(x.peerAgain.Ok?));
  }

  lemma {:induction false} AskGrows(w: Primitives, s: World, operation: Case, x: Exchange)
    requires s.active.Some?
    ensures Grows(s, Ask(w, s, operation, x).0)
  {
    var t0 := ReadClocks(w, s, x.before).0;
    var t1 := Saw(t0, PeerCheck(x.peer.Ok?));
    var t2 := Saw(t1, Request(x.request.Ok?));
    var t3 := Saw(t2, Execute(operation, x.executed.Ok?));
    SameGrows(s, t0);
    SawGrows(s, t1, PeerCheck(x.peer.Ok?));
    SawGrows(t1, t2, Request(x.request.Ok?));
    SawGrows(t2, t3, Execute(operation, x.executed.Ok?));
    GrowsOn(s, t1, t2);
    GrowsOn(s, t2, t3);
    AnsweredGrows(w, t3, x);
    GrowsOn(s, t3, Answered(w, t3, x).0);
  }

  lemma {:induction false} ConcludeGrows(w: Primitives, s: World, operation: Case, passed: bool, digest: string, end: Finish)
    requires s.active.Some?
    ensures Grows(s, Conclude(w, s, operation, passed, digest, end).0)
  {
    var t := Remember(s, operation, passed, digest);
    SawGrows(s, t, Receipt(operation, passed));
    TerminateGrows(w, t, if passed then J.COMPLETED else J.FAILED, None, end);
    GrowsOn(s, t, Terminate(w, t, if passed then J.COMPLETED else J.FAILED, None, end).0);
  }

  lemma {:induction false} ExecuteGrows(w: Primitives, s: World, handle: nat, operation: Case, architecture: string, x: Exchange)
    ensures Grows(s, ExecuteFixed(w, s, handle, operation, architecture, x).0)
  {
    SameGrows(s, s);
    if Holds(s, handle) {
      AskGrows(w, s, operation, x);
      var (t, r) := TryExecute(w, s, operation, architecture, x);
      if r.Ok? {
        ConcludeGrows(w, t, operation, r.value.0, r.value.1, x.end);
      } else {
        TerminateGrows(w, t, J.FAILED, Some(r.reason), x.end);
      }
      GrowsOn(s, t, ExecuteFixed(w, s, handle, operation, architecture, x).0);
    }
  }

  /**
    A call of the machine only adds events, and the file gains exactly the bytes its journal calls report:
    whatever is not an event did not happen.
   */
  lemma {:induction false} NothingUnseen(w: Primitives, s: World, call: Call)
    requires !call.DoOthers?
    ensures Grows(s, Next(w, s, call))
  {
    match call
    case DoOpen(binding, architecture, e) => OpenGrows(w, s, binding, architecture, e);
    case DoExecute(handle, operation, architecture, x) => ExecuteGrows(w, s, handle, operation, architecture, x);
    case DoInterrupt(handle, answer) =>
      SameGrows(s, s);
      SawGrows(s, Saw(s, Interrupt(answer.Ok?)), Interrupt(answer.Ok?));
    case DoCancelHeld(end) =>
      SameGrows(s, s);
      if s.active.Some? { TerminateGrows(w, s, J.CANCELLED, None, end); }
    case DoClose(end) =>
      SameGrows(s, s);
      if s.active.Some? { TerminateGrows(w, s, J.FAILED, None, end); }
  }

  /** Without other writers the file is the old one and the bytes of the journal calls, in order. */
  lemma {:induction false} FileIsTheTrace(w: Primitives, poisoned: bool, stored: string, calls: seq<Call>)
    requires forall k :: 0 <= k < |calls| ==> !calls[k].DoOthers?
    ensures var s := Run(w, New(poisoned, stored), calls); s.stored == stored + Bytes(s.trace)
  {
    RunGrows(w, New(poisoned, stored), calls);
    var trace := Run(w, New(poisoned, stored), calls).trace;
    assert trace[0..] == trace;
  }

  lemma {:induction false} RunGrows(w: Primitives, s: World, calls: seq<Call>)
    requires forall k :: 0 <= k < |calls| ==> !calls[k].DoOthers?
    ensures Grows(s, Run(w, s, calls))
  {
    if calls == [] {
      SameGrows(s, s);
    } else {
      var before := calls[..|calls| - 1];
      RunGrows(w, s, before);
      NothingUnseen(w, Run(w, s, before), calls[|calls| - 1]);
      GrowsOn(s, Run(w, s, before), Run(w, s, calls));
    }
  }

  /** A machine whose session is over stays so: no call has an effect any more, and no handle works. */
  lemma {:induction false} OverForGood(w: Primitives, s: World, calls: seq<Call>)
    requires s.used && s.active.None?
    ensures Run(w, s, calls) == s.(stored := Run(w, s, calls).stored)
    ensures (forall k :: 0 <= k < |calls| ==> !calls[k].DoOthers?) ==> Run(w, s, calls) == s
  {
    if calls != [] {
      OverForGood(w, s, calls[..|calls| - 1]);
    }
  }
}
