/**
  The calls of the one-shot session machine `_Lifecycle` (live_supervisor.py) as functions on its state.
  Clock readings, answers of the boundary and storage faults are inputs, so whatever is proved of these
  functions holds for all of them.  Times are microseconds.
 */
module SessionSteps {
  import opened Prelude
  import opened CanonicalJson
  import opened Digests
  import opened Cases
  import opened DurableFile
  import J = ReplayJournal

  const LIFETIME := 900000000
  const ARCHITECTURES := ["amd64", "arm64"]

  // ---------------------------------------------------------------- what can be observed of a session

  /** Every call of the journal and of the boundary, and every receipt taken, in order. */
  datatype Event =
    | Journalled(state: J.State, outcome: Outcome<string>, wrote: string)
    | Establish(ok: bool)
    | PeerCheck(ok: bool)
    | Request(ok: bool)
    | Execute(operation: Case, ok: bool)
    | Receipt(of: Case, passed: bool)
    | Interrupt(ok: bool)
    | Cleanup(ok: bool)

  /** What a boundary call comes to: it returns, or raises for a reason of its own. */
  type Answer = Outcome<()>

  datatype Tick = At(time: int) | NotFinite | Raised(reason: string)

  /** One reading of the two clocks. */
  datatype Reading = Reading(wall: Outcome<string>, monotonic: Tick)

  datatype Active = Active(
    binding: J.Binding, architecture: string, deadline: int, lastWall: int, lastMonotonic: int,
    done: map<Case, string>, handle: Option<nat>)

  /** The machine, the journal object and the file under it, and the calls made so far. */
  datatype World = World(
    active: Option<Active>, used: bool, serial: nat,
    poisoned: bool, stored: string, trace: seq<Event>)

  datatype Finish = Finish(reading: Reading, cleanup: Answer, fault: Fault)

  datatype Opening = Opening(
    first: Reading, reserveFault: Fault, second: Reading, ambient: Answer, establish: Answer, peer: Answer,
    third: Reading, runningFault: Fault, end: Finish)

  datatype Exchange = Exchange(
    before: Reading, peer: Answer, request: Answer, executed: Answer, after: Reading, peerAgain: Answer,
    receipt: Outcome<(bool, string)>, end: Finish)

  function Saw(s: World, e: Event): World {
    s.(trace := s.trace + [e])
  }

  // ---------------------------------------------------------------- clocks

  /** The end of a validated binding's window. */
  function WindowEnd(w: Primitives, b: J.Binding): int {
    if w.IsTime(b.notAfter) then w.Instant(b.notAfter) else 0
  }

  /** `_now`: the readings are remembered even when the time turns out to be over. */
  function Now(w: Primitives, a: Active, r: Reading): (Active, Outcome<string>) {
    if r.wall.Refused? then (a, r.wall)
    else if !w.IsTime(r.wall.value) then (a, Refused("LINUX_TIME_INVALID"))
    else if r.monotonic.Raised? then (a, Refused(r.monotonic.reason))
    else if r.monotonic.NotFinite? || r.monotonic.time < a.lastMonotonic then (a, Refused("SUPERVISOR_MONOTONIC_ROLLBACK"))
    else if w.Instant(r.wall.value) < a.lastWall then (a, Refused("SUPERVISOR_CLOCK_ROLLBACK"))
    else
      var b := a.(lastWall := w.Instant(r.wall.value), lastMonotonic := r.monotonic.time);
      if b.lastWall < WindowEnd(w, a.binding) && b.lastMonotonic < a.deadline then (b, r.wall)
      else (b, Refused("SUPERVISOR_EXPIRED"))
  }

  function ReadClocks(w: Primitives, s: World, r: Reading): (World, Outcome<string>)
    requires s.active.Some?
  {
    var (a, now) := Now(w, s.active.value, r);
    (s.(active := Some(a)), now)
  }

  /** The state `_terminate` claims, or why no claim may be made. */
  function Verdict(w: Primitives, a: Active, state: J.State, r: Reading): Outcome<J.State> {
    if r.wall.Refused? then Refused(r.wall.reason)
    else if !w.IsTime(r.wall.value) then Refused("LINUX_TIME_INVALID")
    else if r.monotonic.Raised? then Refused(r.monotonic.reason)
    else if w.Instant(r.wall.value) < a.lastWall then Refused("SUPERVISOR_CLOCK_ROLLBACK")
    else if r.monotonic.NotFinite? || r.monotonic.time < a.lastMonotonic then Refused("SUPERVISOR_MONOTONIC_ROLLBACK")
    else if w.Instant(r.wall.value) >= WindowEnd(w, a.binding) then Ok(J.EXPIRED)
    else if r.monotonic.time >= a.deadline then Ok(J.FAILED)
    else Ok(state)
  }

  // ---------------------------------------------------------------- the journal

  /** One transaction of the journal. */
  function Record(w: Primitives, s: World, b: J.Binding, state: J.State, now: string, receipt: Option<string>, fault: Fault)
    : (World, Outcome<string>)
  {
    var d := J.Recorded(w, s.poisoned, s.stored, b, state, now, receipt, fault);
    (Saw(s.(poisoned := d.poisoned, stored := s.stored + d.wrote), Journalled(state, d.outcome, d.wrote)), d.outcome)
  }

  /** The document whose digest a terminal row carries. */
  function OutcomeJson(state: J.State, done: map<Case, string>): Json {
    Obj([
      Member("nativeAcceptance", Bool(false)),
      Member("receipts", Obj(DoneMembers(done, SORTED))),
      Member("state", Str(J.StateName(state)))])
  }

  /** The cases in the order of their names. */
  const SORTED: seq<Case> := [
    ARBITRARY_NON_ROOT_UID, CONTROL_CONTAINER_STARTUP, DEFAULT_DENY_NETWORK, DURABLE_RESTART,
    FULL_PREDECESSOR_REGRESSION, HOST_ISOLATION_NEGATIVES, KUBERNETES_SMOKE, LINUX_TARGET_BUILD,
    POSTGRES_MIGRATION_AND_RLS, READ_ONLY_ROOT_FILESYSTEM]

  function DoneMembers(done: map<Case, string>, cases: seq<Case>): seq<Member> {
    if cases == [] then []
    else (if cases[0] in done then [Member(CaseName(cases[0]), Str(done[cases[0]]))] else []) + DoneMembers(done, cases[1..])
  }

  // ---------------------------------------------------------------- the end of a session

  /** Why no terminal row may be written: a clock went wrong, or else the cleanup is unproven. */
  function Unproven(verdict: Outcome<J.State>, cleanup: Answer): Option<string> {
    if verdict.Refused? then Some(verdict.reason) else if cleanup.Refused? then Some(cleanup.reason) else None
  }

  /** `_terminate` of a live session; `original` is the failure that is being handled, if any. */
  function Terminate(w: Primitives, s: World, state: J.State, original: Option<string>, end: Finish): (World, Outcome<J.State>)
    requires s.active.Some?
  {
    var a := s.active.value;
    var verdict := Verdict(w, a, state, end.reading);
    var unproven := Unproven(verdict, end.cleanup);
    var t := Saw(s.(active := None), Cleanup(end.cleanup.Ok?));
    if unproven.Some? then (t, Refused(if original.Some? then original.value else unproven.value))
    else Claim(w, t, a, verdict.value, end)
  }

  /** The terminal row. */
  function Claim(w: Primitives, t: World, a: Active, verdict: J.State, end: Finish): (World, Outcome<J.State>)
    requires end.reading.wall.Ok?
  {
    var (u, out) := Record(w, t, a.binding, verdict, end.reading.wall.value, Some(w.Digest(OutcomeJson(verdict, a.done))), end.fault);
    (u, if out.Ok? then Ok(verdict) else Refused(out.reason))
  }

  /** The `except` clause of a call that failed for `reason`: only a refused row takes its place. */
  function Fail(w: Primitives, s: World, reason: string, end: Finish): (World, string)
    requires s.active.Some?
  {
    var (t, out) := Terminate(w, s, J.FAILED, Some(reason), end);
    (t, if out.Refused? then out.reason else reason)
  }

  /** A call that ends the session on purpose. */
  function End<T>(w: Primitives, s: World, state: J.State, answer: T, end: Finish): (World, Outcome<T>)
    requires s.active.Some?
  {
    var (t, out) := Terminate(w, s, state, None, end);
    (t, if out.Ok? then Ok(answer) else Refused(out.reason))
  }

  // ---------------------------------------------------------------- opening

  /** What `_open` checks and computes before the reservation. */
  function Admitted(w: Primitives, b: J.Binding, architecture: string, r: Reading): Outcome<Active>
    requires J.ValidBinding(w, b)
  {
    if r.wall.Refused? then Refused(r.wall.reason)
    else if !w.IsTime(r.wall.value) then Refused("LINUX_TIME_INVALID")
    else
      var instant := w.Instant(r.wall.value);
      if !(w.Instant(b.notBefore) <= instant < w.Instant(b.notAfter)) then Refused("SESSION_NOT_CURRENT")
      else if architecture !in ARCHITECTURES then Refused("SUPERVISOR_ARCHITECTURE_INVALID")
      else if r.monotonic.Raised? then Refused(r.monotonic.reason)
      else if r.monotonic.NotFinite? then Refused("SUPERVISOR_MONOTONIC_INVALID")
      else
        var duration := w.Instant(b.notAfter) - instant;
        Ok(Active(b, architecture, r.monotonic.time + if duration < LIFETIME then duration else LIFETIME,
                  instant, r.monotonic.time, map[], None))
  }

  /** `_open`. */
  function Open(w: Primitives, s: World, b: J.Binding, architecture: string, e: Opening): (World, Outcome<nat>) {
    if !J.ValidBinding(w, b) then (s, Refused("SESSION_WINDOW_INVALID"))
    else if s.active.Some? || s.used then (s, Refused("SUPERVISOR_BUSY"))
    else
      match Admitted(w, b, architecture, e.first)
      case Refused(reason) => (s, Refused(reason))
      case Ok(a) => Reserve(w, s, a, e)
  }

  /** The one reservation; even an ambiguous one uses the machine up. */
  function Reserve(w: Primitives, s: World, a: Active, e: Opening): (World, Outcome<nat>)
    requires e.first.wall.Ok?
  {
    var (t, out) := Record(w, s.(used := true), a.binding, J.RESERVED, e.first.wall.value, None, e.reserveFault);
    if out.Refused? then (t, Refused(out.reason)) else Started(w, t.(active := Some(a)), e)
  }

  /** What follows a successful reservation: a running session, or its end. */
  function Started(w: Primitives, s: World, e: Opening): (World, Outcome<nat>)
    requires s.active.Some?
  {
    var (t, r) := TryEstablish(w, s, e);
    if r.Ok? then (t, r)
    else
      var (u, reason) := Fail(w, t, r.reason, e.end);
      (u, Refused(reason))
  }

  /** The `try` block of `_open` behind the reservation. */
  function TryEstablish(w: Primitives, s: World, e: Opening): (r: (World, Outcome<nat>))
    requires s.active.Some?
    ensures r.0.active.Some?
  {
    var (t, now) := ReadClocks(w, s, e.second);
    if now.Refused? then (t, Refused(now.reason))
    else if e.ambient.Refused? then (t, Refused(e.ambient.reason))
    else
      var t := Saw(t, Event.Establish(e.establish.Ok?));
      if e.establish.Refused? then (t, Refused(e.establish.reason))
      else
        var t := Saw(t, PeerCheck(e.peer.Ok?));
        if e.peer.Refused? then (t, Refused(e.peer.reason)) else StartRunning(w, t, e.third, e.runningFault)
  }

  function StartRunning(w: Primitives, s: World, reading: Reading, fault: Fault): (r: (World, Outcome<nat>))
    requires s.active.Some?
    ensures r.0.active.Some?
  {
    var (t, now) := ReadClocks(w, s, reading);
    if now.Refused? then (t, Refused(now.reason)) else RecordRunning(w, t, now.value, fault)
  }

  /** The RUNNING row, and with it a handle. */
  function RecordRunning(w: Primitives, s: World, now: string, fault: Fault): (r: (World, Outcome<nat>))
    requires s.active.Some?
    ensures r.0.active.Some?
  {
    var (t, out) := Record(w, s, s.active.value.binding, J.RUNNING, now, None, fault);
    if out.Refused? then (t, Refused(out.reason)) else (Handed(t), Ok(Handed(t).serial))
  }

  /** The session gets the next handle. */
  function Handed(s: World): (t: World)
    requires s.active.Some?
    ensures t.active.Some?
  {
    s.(serial := s.serial + 1, active := Some(s.active.value.(handle := Some(s.serial + 1))))
  }

  // ---------------------------------------------------------------- one case

  predicate Holds(s: World, handle: nat) {
    s.active.Some? && s.active.value.handle == Some(handle)
  }

  /** `execute_fixed`. */
  function ExecuteFixed(w: Primitives, s: World, handle: nat, operation: Case, architecture: string, x: Exchange)
    : (World, Outcome<bool>)
  {
    if !Holds(s, handle) then (s, Refused("SUPERVISOR_HANDLE_INVALID"))
    else
      var (t, r) := TryExecute(w, s, operation, architecture, x);
      match r
      case Ok((passed, digest)) => Conclude(w, t, operation, passed, digest, x.end)
      case Refused(reason) =>
        var (u, why) := Fail(w, t, reason, x.end);
        (u, Refused(why))
  }

  /** The `try` block of `execute_fixed` up to the validated receipt. */
  function TryExecute(w: Primitives, s: World, operation: Case, architecture: string, x: Exchange)
    : (r: (World, Outcome<(bool, string)>))
    requires s.active.Some?
    ensures r.0.active.Some?
  {
    if operation in s.active.value.done then (s, Refused("SUPERVISOR_OPERATION_INVALID"))
    else if architecture != s.active.value.architecture then (s, Refused("SUPERVISOR_ARCHITECTURE_MISMATCH"))
    else Ask(w, s, operation, x)
  }

  function Ask(w: Primitives, s: World, operation: Case, x: Exchange): (r: (World, Outcome<(bool, string)>))
    requires s.active.Some?
    ensures r.0.active.Some?
  {
    var (t, now) := ReadClocks(w, s, x.before);
    if now.Refused? then (t, Refused(now.reason))
    else
      var t := Saw(t, PeerCheck(x.peer.Ok?));
      if x.peer.Refused? then (t, Refused(x.peer.reason))
      else
        var t := Saw(t, Request(x.request.Ok?));
        if x.request.Refused? then (t, Refused(x.request.reason))
        else
          var t := Saw(t, Execute(operation, x.executed.Ok?));
          if x.executed.Refused? then (t, Refused(x.executed.reason)) else Answered(w, t, x)
  }

  /** Expiry and peer are checked again after the blocking call, then the receipt is validated. */
  function Answered(w: Primitives, s: World, x: Exchange): (r: (World, Outcome<(bool, string)>))
    requires s.active.Some?
    ensures r.0.active.Some?
  {
    var (t, now) := ReadClocks(w, s, x.after);
    if now.Refused? then (t, Refused(now.reason))
    else
      var t := Saw(t, PeerCheck(x.peerAgain.Ok?));
      (t, if x.peerAgain.Refused? then Refused(x.peerAgain.reason) else x.receipt)
  }

  /** A valid receipt is remembered; the first that is not PASS and the tenth PASS end the session. */
  function Conclude(w: Primitives, s: World, operation: Case, passed: bool, digest: string, end: Finish): (World, Outcome<bool>)
    requires s.active.Some?
  {
    var t := Remember(s, operation, passed, digest);
    if !passed then End(w, t, J.FAILED, false, end)
    else if |t.active.value.done| == |CASES| then End(w, t, J.COMPLETED, true, end)
    else (t, Ok(true))
  }

  function Remember(s: World, operation: Case, passed: bool, digest: string): (t: World)
    requires s.active.Some?
    ensures t.active.Some?
  {
    var a := s.active.value;
    Saw(s.(active := Some(a.(done := a.done[operation := digest]))), Receipt(operation, passed))
  }

  // ---------------------------------------------------------------- cancelling and closing

  /** `cancel` up to the mutex: it changes nothing, and may come while another call is under way. */
  function Interrupted(s: World, handle: nat, answer: Answer): (World, Outcome<()>) {
    if !Holds(s, handle) then (s, Refused("SUPERVISOR_HANDLE_INVALID"))
    else (Saw(s, Interrupt(answer.Ok?)), answer)
  }

  /** `cancel` under the mutex: the session may have ended in between, with or without a row. */
  function CancelHeld(w: Primitives, s: World, end: Finish): (World, Outcome<()>) {
    if s.active.None? then (s, Ok(())) else End(w, s, J.CANCELLED, (), end)
  }

  /** `cancel` with nothing in between. */
  function Cancel(w: Primitives, s: World, handle: nat, answer: Answer, end: Finish): (World, Outcome<()>) {
    var (t, r) := Interrupted(s, handle, answer);
    if r.Refused? then (t, r) else CancelHeld(w, t, end)
  }

  function Close(w: Primitives, s: World, end: Finish): (World, Outcome<()>) {
    if s.active.None? then (s, Ok(())) else End(w, s, J.FAILED, (), end)
  }

  /** Bytes that other processes append through the same parser, under other keys. */
  predicate MayAppend(w: Primitives, s: World, more: string) {
    && J.Accepted(w, s.stored).Some? && J.Accepted(w, s.stored + more).Some?
    && (s.active.Some? ==>
          var key := J.ReplayKey(w, s.active.value.binding);
          J.Lookup(J.Accepted(w, s.stored + more).value.latest, key) == J.Lookup(J.Accepted(w, s.stored).value.latest, key))
  }

  function OthersAppend(w: Primitives, s: World, more: string): World {
    if MayAppend(w, s, more) then s.(stored := s.stored + more) else s
  }

  // ---------------------------------------------------------------- runs

  datatype Call =
    | DoOpen(binding: J.Binding, architecture: string, e: Opening)
    | DoExecute(handle: nat, operation: Case, architecture: string, x: Exchange)
    | DoInterrupt(handle: nat, answer: Answer)
    | DoCancelHeld(end: Finish)
    | DoClose(end: Finish)
    | DoOthers(more: string)

  function Next(w: Primitives, s: World, call: Call): World {
    match call
    case DoOpen(binding, architecture, e) => Open(w, s, binding, architecture, e).0
    case DoExecute(handle, operation, architecture, x) => ExecuteFixed(w, s, handle, operation, architecture, x).0
    case DoInterrupt(handle, answer) => Interrupted(s, handle, answer).0
    case DoCancelHeld(end) => CancelHeld(w, s, end).0
    case DoClose(end) => Close(w, s, end).0
    case DoOthers(more) => OthersAppend(w, s, more)
  }

  /** Any calls in any order, with any inputs. */
  function Run(w: Primitives, s: World, calls: seq<Call>): World {
    if calls == [] then s else Next(w, Run(w, s, calls[..|calls| - 1]), calls[|calls| - 1])
  }

  /** A new machine over some journal file. */
  function New(poisoned: bool, stored: string): World {
    World(None, false, 0, poisoned, stored, [])
  }
}
