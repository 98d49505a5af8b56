/**
  The one-shot session machine `_Lifecycle` (live_supervisor.py) as an object over the replay journal.
  Every method performs in place exactly the step of `SessionSteps` it is named after, so everything
  `SessionRuns` proves of runs holds of the object.
 */
module Supervisor {
  import opened Prelude
  import opened Digests
  import opened Cases
  import opened DurableFile
  import opened SessionSteps
  import S = SessionSteps
  import R = SessionRuns
  import J = ReplayJournal

  class Lifecycle {
    const w: Primitives
    const journal: J.Journal
    var active: Option<Active>
    var used: bool
    var serial: nat
    ghost var trace: seq<Event>

    /** Everything a step reads or changes. */
    ghost function State(): World
      reads this, journal, journal.storage
    {
      World(active, used, serial, journal.poisoned, journal.storage.content, trace)
    }

    ghost predicate Valid()
      reads this, journal, journal.storage
    {
      w.DigestValued() && journal.w == w && R.Safe(w, State())
    }

    constructor (w: Primitives, journal: J.Journal)
      requires w.DigestValued() && journal.w == w
      ensures Valid() && this.w == w && this.journal == journal && State() == New(journal.poisoned, journal.storage.content)
    {
      this.w, this.journal := w, journal;
      active, used, serial, trace := None, false, 0, [];
    }

    // ---------------------------------------------------------------- pieces

    ghost method Observe(e: Event)
      modifies `trace
      ensures State() == Saw(old(State()), e)
    {
      trace := trace + [e];
    }

    /** `_now`, which updates the remembered readings even when it refuses. */
    method ReadClocks(reading: Reading) returns (now: Outcome<string>)
      requires active.Some?
      modifies `active
      ensures (State(), now) == S.ReadClocks(w, old(State()), reading)
    {
      var result := Now(w, active.value, reading);
      active := Some(result.0);
      now := result.1;
    }

    method Record(b: J.Binding, state: J.State, now: string, receipt: Option<string>, fault: Fault) returns (out: Outcome<string>)
      requires journal.w == w
      modifies `trace, journal, journal.storage
      ensures (State(), out) == S.Record(w, old(State()), b, state, now, receipt, fault)
    {
      ghost var before := journal.storage.content;
      out := journal.Record(b, state, now, receipt, fault);
      ghost var wrote := journal.storage.content[|before|..];
      assert journal.storage.content == before + wrote;
      trace := trace + [Journalled(state, out, wrote)];
    }

    // ---------------------------------------------------------------- the end of a session

    /** `_terminate`: the session is gone first; a row is written only with sound clocks and a proven cleanup. */
    method Terminate(state: J.State, original: Option<string>, end: Finish) returns (r: Outcome<J.State>)
      requires journal.w == w && active.Some?
      modifies this, journal, journal.storage
      ensures (State(), r) == S.Terminate(w, old(State()), state, original, end)
    {
      var a := active.value;
      active := None;
      var verdict := Verdict(w, a, state, end.reading);
      Observe(Cleanup(end.cleanup.Ok?));
      var unproven := Unproven(verdict, end.cleanup);
      if unproven.Some? {
        return Refused(if original.Some? then original.value else unproven.value);
      }
      var digest := w.Digest(OutcomeJson(verdict.value, a.done));
      var out := Record(a.binding, verdict.value, end.reading.wall.value, Some(digest), end.fault);
      r := if out.Ok? then Ok(verdict.value) else Refused(out.reason);
    }

    /** The `except` clause of a call. */
    method Fail(reason: string, end: Finish) returns (why: string)
      requires journal.w == w && active.Some?
      modifies this, journal, journal.storage
      ensures (State(), why) == S.Fail(w, old(State()), reason, end)
    {
      var out := Terminate(J.FAILED, Some(reason), end);
      why := if out.Refused? then out.reason else reason;
    }

    method End<T>(state: J.State, answer: T, end: Finish) returns (r: Outcome<T>)
      requires journal.w == w && active.Some?
      modifies this, journal, journal.storage
      ensures (State(), r) == S.End(w, old(State()), state, answer, end)
    {
      var out := Terminate(state, None, end);
      r := if out.Ok? then Ok(answer) else Refused(out.reason);
    }

    // ---------------------------------------------------------------- opening

    /** `_open`. */
    method Open(binding: J.Binding, architecture: string, e: Opening) returns (r: Outcome<nat>)
      requires Valid()
      modifies this, journal, journal.storage
      ensures Valid() && (State(), r) == S.Open(w, old(State()), binding, architecture, e)
      ensures R.Grows(old(State()), State())
    {
      R.OpenSafe(w, State(), binding, architecture, e);
      R.OpenGrows(w, State(), binding, architecture, e);
      if !J.ValidBinding(w, binding) {
        return Refused("SESSION_WINDOW_INVALID");
      }
      if active.Some? || used {
        return Refused("SUPERVISOR_BUSY");
      }
      var a := Admitted(w, binding, architecture, e.first);
      if a.Refused? {
        return Refused(a.reason);
      }
      r := Reserve(a.value, e);
    }

    /** The one reservation of this object; even an ambiguous one uses it up. */
    method Reserve(a: Active, e: Opening) returns (r: Outcome<nat>)
      requires journal.w == w && e.first.wall.Ok?
      modifies this, journal, journal.storage
      ensures (State(), r) == S.Reserve(w, old(State()), a, e)
    {
      used := true;
      var out := Record(a.binding, J.RESERVED, e.first.wall.value, None, e.reserveFault);
      if out.Refused? {
        return Refused(out.reason);
      }
      active := Some(a);
      r := TryEstablish(e);
      if r.Refused? {
        var reason := Fail(r.reason, e.end);
        r := Refused(reason);
      }
    }

    /** The `try` block of `_open` behind the reservation. */
    method TryEstablish(e: Opening) returns (r: Outcome<nat>)
      requires journal.w == w && active.Some?
      modifies this, journal, journal.storage
      ensures (State(), r) == S.TryEstablish(w, old(State()), e)
    {
      var now := ReadClocks(e.second);
      if now.Refused? {
        return Refused(now.reason);
      }
      if e.ambient.Refused? {
        return Refused(e.ambient.reason);
      }
      Observe(Event.Establish(e.establish.Ok?));
      if e.establish.Refused? {
        return Refused(e.establish.reason);
      }
      Observe(PeerCheck(e.peer.Ok?));
      if e.peer.Refused? {
        return Refused(e.peer.reason);
      }
      r := StartRunning(e.third, e.runningFault);
    }

    method StartRunning(reading: Reading, fault: Fault) returns (r: Outcome<nat>)
      requires journal.w == w && active.Some?
      modifies this, journal, journal.storage
      ensures (State(), r) == S.StartRunning(w, old(State()), reading, fault)
    {
      var now := ReadClocks(reading);
      if now.Refused? {
        return Refused(now.reason);
      }
      r := RecordRunning(now.value, fault);
    }

    /** The RUNNING row, and with it a handle. */
    method RecordRunning(now: string, fault: Fault) returns (r: Outcome<nat>)
      requires journal.w == w && active.Some?
      modifies this, journal, journal.storage
      ensures (State(), r) == S.RecordRunning(w, old(State()), now, fault)
    {
      var out := Record(active.value.binding, J.RUNNING, now, None, fault);
      if out.Refused? {
        return Refused(out.reason);
      }
      Handed();
      r := Ok(serial);
    }

    /** The session gets the next handle. */
    method Handed()
      requires active.Some?
      modifies `serial, `active
      ensures State() == S.Handed(old(State()))
    {
      serial := serial + 1;
      active := Some(active.value.(handle := Some(serial)));
    }

    // ---------------------------------------------------------------- one case

    /** `execute_fixed`. */
    method ExecuteFixed(handle: nat, operation: Case, architecture: string, x: Exchange) returns (r: Outcome<bool>)
      requires Valid()
      modifies this, journal, journal.storage
      ensures Valid() && (State(), r) == S.ExecuteFixed(w, old(State()), handle, operation, architecture, x)
      ensures R.Grows(old(State()), State())
    {
      R.ExecuteSafe(w, State(), handle, operation, architecture, x);
      R.ExecuteGrows(w, State(), handle, operation, architecture, x);
      if active.None? || active.value.handle != Some(handle) {
        return Refused("SUPERVISOR_HANDLE_INVALID");
      }
      var receipt := TryExecute(operation, architecture, x);
      if receipt.Refused? {
        var reason := Fail(receipt.reason, x.end);
        return Refused(reason);
      }
      r := Conclude(operation, receipt.value.0, receipt.value.1, x.end);
    }

    /** The `try` block of `execute_fixed` up to the validated receipt. */
    method TryExecute(operation: Case, architecture: string, x: Exchange) returns (r: Outcome<(bool, string)>)
      requires active.Some?
      modifies `active, `trace
      ensures (State(), r) == S.TryExecute(w, old(State()), operation, architecture, x)
    {
      if operation in active.value.done {
        return Refused("SUPERVISOR_OPERATION_INVALID");
      }
      if architecture != active.value.architecture {
        return Refused("SUPERVISOR_ARCHITECTURE_MISMATCH");
      }
      var now := ReadClocks(x.before);
      if now.Refused? {
        return Refused(now.reason);
      }
      Observe(PeerCheck(x.peer.Ok?));
      if x.peer.Refused? {
        return Refused(x.peer.reason);
      }
      Observe(Request(x.request.Ok?));
      if x.request.Refused? {
        return Refused(x.request.reason);
      }
      Observe(Event.Execute(operation, x.executed.Ok?));
      if x.executed.Refused? {
        return Refused(x.executed.reason);
      }
      r := Answered(x);
    }

    /** Expiry and peer are checked again after the blocking call, then the receipt is validated. */
    method Answered(x: Exchange) returns (r: Outcome<(bool, string)>)
      requires active.Some?
      modifies `active, `trace
      ensures (State(), r) == S.Answered(w, old(State()), x)
    {
      var now := ReadClocks(x.after);
      if now.Refused? {
        return Refused(now.reason);
      }
      Observe(PeerCheck(x.peerAgain.Ok?));
      r := if x.peerAgain.Refused? then Refused(x.peerAgain.reason) else x.receipt;
    }

    /** A valid receipt is remembered; the first that is not PASS and the tenth PASS end the session. */
    method Conclude(operation: Case, passed: bool, digest: string, end: Finish) returns (r: Outcome<bool>)
      requires journal.w == w && active.Some?
      modifies this, journal, journal.storage
      ensures (State(), r) == S.Conclude(w, old(State()), operation, passed, digest, end)
    {
      active := Some(active.value.(done := active.value.done[operation := digest]));
      Observe(Receipt(operation, passed));
      if !passed {
        r := End(J.FAILED, false, end);
      } else if |active.value.done| == |CASES| {
        r := End(J.COMPLETED, true, end);
      } else {
        r := Ok(true);
      }
    }

    // ---------------------------------------------------------------- cancelling and closing

    /** `cancel` up to the mutex. */
    method Interrupted(handle: nat, answer: Answer) returns (r: Outcome<()>)
      requires Valid()
      modifies `trace
      ensures Valid() && (State(), r) == S.Interrupted(old(State()), handle, answer)
      ensures R.Grows(old(State()), State())
    {
      R.InterruptSafe(w, State(), handle, answer);
      R.NothingUnseen(w, State(), DoInterrupt(handle, answer));
      if active.None? || active.value.handle != Some(handle) {
        return Refused("SUPERVISOR_HANDLE_INVALID");
      }
      Observe(Interrupt(answer.Ok?));
      r := answer;
    }

    /** `cancel` under the mutex, whatever happened since the boundary was interrupted. */
    method CancelHeld(end: Finish) returns (r: Outcome<()>)
      requires Valid()
      modifies this, journal, journal.storage
      ensures Valid() && (State(), r) == S.CancelHeld(w, old(State()), end)
      ensures R.Grows(old(State()), State())
    {
      if active.None? {
        R.SameGrows(State(), State());
        return Ok(());
      }
      R.EndSafe(w, State(), J.CANCELLED, end);
      R.TerminateGrows(w, State(), J.CANCELLED, None, end);
      r := End(J.CANCELLED, (), end);
    }

    /** `cancel` with nothing in between. */
    method Cancel(handle: nat, answer: Answer, end: Finish) returns (r: Outcome<()>)
      requires Valid()
      modifies this, journal, journal.storage
      ensures Valid() && (State(), r) == S.Cancel(w, old(State()), handle, answer, end)
      ensures R.Grows(old(State()), State())
    {
      ghost var before := State();
      r := Interrupted(handle, answer);
      ghost var between := State();
      if r.Ok? {
        r := CancelHeld(end);
        R.GrowsOn(before, between, State());
      }
    }

    /** `close`. */
    method Close(end: Finish) returns (r: Outcome<()>)
      requires Valid()
      modifies this, journal, journal.storage
      ensures Valid() && (State(), r) == S.Close(w, old(State()), end)
      ensures R.Grows(old(State()), State())
    {
      if active.None? {
        R.SameGrows(State(), State());
        return Ok(());
      }
      R.EndSafe(w, State(), J.FAILED, end);
      R.TerminateGrows(w, State(), J.FAILED, None, end);
      r := End(J.FAILED, (), end);
    }
  }
}
