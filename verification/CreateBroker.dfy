/** The broker object whose methods advance the pipeline in place. */
module CreateBroker {
  import opened Prelude
  import opened CanonicalJson
  import opened DurableFile
  import opened CreatePipeline
  import T = BrokerTranscript
  import H = BrokerHistory
  import L = AdmissionLedger
  import F = AdmissionLog
  import P = Profiles

  class Broker {
    const c: Setup
    const log: F.Log
    const parser: T.Parser
    var failed: bool
    var ledgerRaw: string
    var transcriptRaw: H.Snapshot
    var intent: Option<Intent>
    var api: Api
    var exchange: Option<string>
    var created: Option<Created>
    var result: Option<Delivery>
    var retired: bool
    var effects: seq<Effect>

    ghost predicate Valid()
      reads this, log, parser
    {
      log.w == c.w && parser.w == c.w && parser.x == c.x && (parser.poisoned ==> failed)
    }

    function State(): Pipe
      reads this, log, log.storage, parser
    {
      Pipe(log.storage.content, log.poisoned, parser.State(), failed, ledgerRaw, transcriptRaw,
           intent, api, exchange, created, result, retired, effects)
    }

    /** The object is in this state; a parser poisoned by a bad frame may be left half updated. */
    ghost predicate Is(p: Pipe)
      reads this, log, log.storage, parser
    {
      Valid() && State() == if parser.poisoned then p.(transcript := parser.State()) else p
    }

    constructor (c: Setup, log: F.Log, parser: T.Parser)
      requires log.w == c.w && parser.w == c.w && parser.x == c.x && !log.poisoned && !parser.poisoned
      requires log.storage as object != log as object
      ensures Valid() && this.c == c && this.log == log && this.parser == parser
      ensures State() == Pipe(log.storage.content, false, parser.State(), false, log.storage.content, H.SnapshotOf(c.w, parser.State()),
                              None, Absent, None, None, None, false, [])
    {
      this.c, this.log, this.parser := c, log, parser;
      failed, ledgerRaw, transcriptRaw := false, log.storage.content, H.SnapshotOf(c.w, parser.State());
      intent, api, exchange, created, result, retired, effects := None, Absent, None, None, None, false, [];
    }

    /** The `except` clause of every step: nothing is undone. */
    method Fail(poison: bool)
      requires Valid()
      modifies this, log
      ensures Valid() && State() == Refuse(old(State()), poison)
    {
      failed, api := true, Closed;
      log.poisoned := log.poisoned || poison;
    }

    method Poll(frame: Option<T.Frame>, g: Guards)
      requires Valid()
      modifies this, log, parser
      ensures Is(CreatePipeline.Poll(c, old(State()), frame, g))
    {
      var p := State();
      if !Intact(c, p) || !g.before || retired || parser.pending.Some? || parser.cleanup.Some? || parser.terminal.Some? {
        Fail(false);
        return;
      }
      if frame.None? {
        if !g.last {
          Fail(false);
        }
        return;
      }
      if !(frame.value.payload.ResourceAction? || frame.value.payload.ReceiptChunk?) {
        Fail(false);
        return;
      }
      var accepted := parser.Receive(frame.value, T.BROKER);
      failed := !accepted;
      if accepted {
        transcriptRaw := H.SnapshotOf(c.w, parser.State());
      }
      if !accepted || !g.last {
        Fail(false);
      }
    }

    /** The write both recording steps share: the exact row, then the exact readback. */
    method Write(state: L.RowState, now: string, action: P.Action, observed: Option<Json>, row: L.Row, g: Guards, fault: Fault)
      returns (ok: bool)
      requires Valid() && Intact(c, State()) && (state == L.CREATE_INTENT || state == L.CREATED) && (observed.None? <==> state == L.CREATE_INTENT)
      requires RowFor(c, ledgerRaw, state, now, action, observed) == Some(row)
      modifies log, log.storage
      ensures Valid() && ok == (fault.NoFault? && g.confirmed)
      ensures log.storage.content == Left(old(log.storage.content), Line(row), fault)
      ensures ok ==> !log.poisoned
    {
      RowForMeans(c, ledgerRaw, state, now, action, observed);
      var digest := log.RecordResource(c.reservation, state, c.operation, now, c.profile, c.broker, action, ledgerRaw, observed, fault);
      ok := digest.Some? && g.confirmed;
      if fault.Unavailable? {
        assert Line(row)[..0] == "";
      }
    }

    method RecordCreateIntent(now: string, g: Guards, fault: Fault)
      requires Valid()
      modifies this, log, log.storage
      ensures Is(RecordIntent(c, old(State()), now, g, fault))
    {
      var row := IntentRow(c, State(), now, g);
      if row.None? {
        Fail(intent.Some?);
      } else {
        IntentRowMeans(c, State(), now, g);
        CommitIntent(now, row.value, g, fault);
      }
    }

    method CommitIntent(now: string, row: L.Row, g: Guards, fault: Fault)
      requires Valid() && Intact(c, State()) && parser.pending.Some?
      requires RowFor(c, ledgerRaw, L.CREATE_INTENT, now, parser.pending.value, None) == Some(row)
      modifies this, log, log.storage
      ensures Is(WriteIntent(old(State()), row, g, fault))
    {
      var written := Write(L.CREATE_INTENT, now, parser.pending.value, None, row, g, fault);
      PublishIntent(Intent(parser.pending.value, row, ledgerRaw), written, g);
    }

    /** The pin advances only after a confirmed write. */
    method PublishIntent(made: Intent, written: bool, g: Guards)
      requires Valid()
      modifies this, log
      ensures Valid()
      ensures State() ==
              var p := old(State());
              var advanced := p.(ledgerRaw := p.stored, intent := Some(made));
              if !written then Refuse(p, true) else if g.last then advanced else Refuse(advanced, true)
    {
      if !written {
        Fail(true);
        return;
      }
      intent, ledgerRaw := Some(made), log.storage.content;
      if !g.last {
        Fail(true);
      }
    }

    method PrepareApi(g: Guards)
      requires Valid()
      modifies this, log
      ensures Is(CreatePipeline.PrepareApi(c, old(State()), g))
    {
      if !Intact(c, State()) || !g.before || api != Absent || parser.pending.None? || !g.last {
        Fail(false);
        return;
      }
      api := Ready;
    }

    method ExchangeApiCreate(g: Guards, response: Option<string>)
      requires Valid()
      modifies this, log
      ensures Is(Exchange(c, old(State()), g, response))
    {
      var p := State();
      var request := RequestToSend(c, p, g);
      if request.None? {
        Fail(intent.Some?);
        return;
      }
      Attempt(request.value, g.confirmed && Answers(c, p, response) && g.last, response);
    }

    /** Attempted is recorded first: even a partial write is never repeated. */
    method Attempt(request: Request, good: bool, response: Option<string>)
      requires Valid()
      modifies this, log
      ensures Valid()
      ensures State() ==
              var attempted := old(State()).(effects := old(effects) + [ApiWrite(old(log.storage.content), request)]);
              if good then attempted.(exchange := response) else Refuse(attempted, true)
    {
      effects := effects + [ApiWrite(log.storage.content, request)];
      if !good {
        Fail(true);
        return;
      }
      exchange := response;
    }

    method RecordApiCreated(now: string, g: Guards, fault: Fault)
      requires Valid()
      modifies this, log, log.storage
      ensures Is(RecordCreated(c, old(State()), now, g, fault))
    {
      var row := CreatedRow(c, State(), now, g);
      if row.None? {
        Fail(intent.Some?);
      } else {
        CreatedRowMeans(c, State(), now, g);
        RowForMeans(c, ledgerRaw, L.CREATED, now, intent.value.action, ObservedIn(exchange.value));
        CommitCreated(now, intent.value.action, ObservedIn(exchange.value), row.value, g, fault);
      }
    }

    method CommitCreated(now: string, action: P.Action, observed: Option<Json>, row: L.Row, g: Guards, fault: Fault)
      requires Valid() && Intact(c, State()) && observed.Some?
      requires RowFor(c, ledgerRaw, L.CREATED, now, action, observed) == Some(row)
      modifies this, log, log.storage
      ensures Is(WriteCreated(old(State()), row, g, fault))
    {
      var written := Write(L.CREATED, now, action, observed, row, g, fault);
      PublishCreated(Created(row, ledgerRaw), written, g);
    }

    method PublishCreated(made: Created, written: bool, g: Guards)
      requires Valid()
      modifies this, log
      ensures Valid()
      ensures State() ==
              var p := old(State());
              var advanced := p.(ledgerRaw := p.stored, created := Some(made));
              if !written then Refuse(p, true) else if g.last then advanced else Refuse(advanced, true)
    {
      if !written {
        Fail(true);
        return;
      }
      created, ledgerRaw := Some(made), log.storage.content;
      if !g.last {
        Fail(true);
      }
    }

    method SendCreateResult(g: Guards)
      requires Valid()
      modifies this, log
      ensures Is(SendResult(c, old(State()), g))
    {
      if result.Some? || !Intact(c, State()) || !g.before || created.None? || exchange.None? || !ActionHeld(State()) {
        Fail(created.Some? && (result.Some? || !failed));
        return;
      }
      var detached := H.Rebuilt(transcriptRaw);
      if H.SnapshotOf(c.w, detached) != transcriptRaw {
        Fail(true);
        return;
      }
      var frame := ResultFrame(c, detached, intent.value.action, exchange.value);
      var next := T.Accept(c.w, c.x, detached, frame, T.SERVER);
      if next.None? {
        Fail(true);
        return;
      }
      Deliver(frame, H.SnapshotOf(c.w, next.value), g);
    }

    /** The sent frame is an effect whatever follows; it is retained only if the guards behind it pass. */
    method Deliver(frame: T.Frame, after: H.Snapshot, g: Guards)
      requires Valid()
      modifies this, log
      ensures Valid()
      ensures State() ==
              var attempted := old(State()).(effects := old(effects) + [ResultSend(old(log.storage.content), frame)]);
              if !g.confirmed || !g.last then Refuse(attempted, true) else attempted.(result := Some(Delivery(frame, after)))
    {
      effects := effects + [ResultSend(log.storage.content, frame)];
      if !g.confirmed || !g.last {
        Fail(true);
        return;
      }
      result := Some(Delivery(frame, after));
    }

    /** The transcript really is advanced before the comparison; only a mismatch, which cannot occur, would leave it so. */
    method RetireCreateResult(g: Guards)
      requires Valid()
      modifies this, log, parser
      ensures Valid()
      ensures old(result).Some? && AdvanceMismatch(c, old(State())) ==> failed
      ensures !(old(result).Some? && AdvanceMismatch(c, old(State()))) ==> Is(Retire(c, old(State()), g))
    {
      if !MayRetire(c, State(), g) {
        Fail(result.Some? && (retired || !failed));
        return;
      }
      api := Closed;
      if !g.confirmed {
        Fail(true);
        return;
      }
      Advance(g);
    }

    method Advance(g: Guards)
      requires Valid() && result.Some? && !failed
      modifies this, log, parser
      ensures Valid()
      ensures AdvanceMismatch(c, old(State())) ==> failed
      ensures !AdvanceMismatch(c, old(State())) ==>
                var p := old(State());
                var t := T.Accept(c.w, c.x, p.transcript, p.result.value.frame, T.SERVER).value;
                var advanced := p.(transcript := t, transcriptRaw := p.result.value.after, retired := true);
                !parser.poisoned && State() == if g.last then advanced else Refuse(advanced, true)
    {
      var accepted := parser.Receive(result.value.frame, T.SERVER);
      failed := !accepted;
      if !accepted || H.SnapshotOf(c.w, parser.State()) != result.value.after {
        Fail(true);
        return;
      }
      transcriptRaw, retired := result.value.after, true;
      if !g.last {
        Fail(true);
      }
    }
  }
}
