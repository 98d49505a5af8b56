# Conformance harness: a verified model

This project models the durable ledgers and protocol machines of the conformance harness and proves,
with Dafny 4.11, what they promise over whole runs. `dafny verify dfyconfig.toml` checks everything.

What is modelled, one module per component:

| module | what it is |
|---|---|
| `ReplayJournal`, `JournalRules` | the single-use nonce journal, and exactly which rows and requests it takes |
| `SessionSteps`, `SessionRuns`, `SessionRules`, `Supervisor`, `SessionTransitions` | the one-shot session machine that drives the journal: its calls as functions, all runs of them, exactly what each call does, the object that performs them in place, and the session data rules beside it |
| `AdmissionLedger`, `AdmissionHistory`, `AdmissionResources`, `AdmissionCodec`, `AdmissionLog`, `AdmissionRules` | the admission ledger: its rows and transitions, its whole histories, the life of each resource, its file, the object that appends to it, and exactly which row may come next |
| `Profiles`, `ProfileRules`, `ObservedObjects`, `Conservation` | execution profiles, what they say member by member, derived resource records, objects the API returns, and the sums all intents keep within the quota |
| `BrokerTranscript`, `BrokerHistory`, `BrokerRules` | the incremental broker frame parser, all transcripts it accepts, and exactly which frame may come next |
| `CreatePipeline`, `CreateRuns`, `CreateRules`, `CreateBroker` | the server side of one CREATE: its steps as functions, all runs of them, the request it sends and the course nothing disturbs, and the broker object that performs them in place |
| `CodeMaps`, `MapMatcher`, `CodeRules` | code segments of ELF files, executable mappings of a process, the loop that matches them, and exactly what the three accept |
| `Seccomp` | the filter generator and an interpreter for classic BPF |
| `CivilTime`, `Instants` | UTC times: the Rust calendar code and the Python reader of fractional times |
| `Der`, `HttpMessages`, `HttpRules`, `HttpReader`, `HttpFraming` | the strict DER splitter, HTTP headers, and HTTP framing over TLS records |
| `Budget`, `BudgetRules` | the two size pre-checks of documents, and exactly what they let pass |
| `CanonicalJson`, `Digits`, `Lines`, `Digests`, `DurableFile`, `Cases`, `Prelude` | canonical JSON text, decimal digits, line splitting, digests, files that may tear, the ten fixed cases, shared types |

Conventions. Byte strings are Dafny strings with one character per byte. Every refusal is a value:
`None`, `Refused(reason)` or `false`. Clock readings, storage faults, guards and boundary calls are
inputs, so every statement holds for all of them. The hash, the time reader and the address test are
parameters (`Digests.Primitives`); that two different texts have different digests is assumed only
where a lemma says so, and only of the texts it names.

Four statements one would expect turned out to be false of the code; each has a lemma giving exactly
when it holds:

- The bytes of an admission ledger are not determined by its rows: a record ended by a carriage return
  and a line feed reads the same, and for every row that fits there is such an accepted file
  (`AdmissionLog.CarriageReturnAccepted`). They are determined exactly for files without a carriage
  return (`AdmissionLog.BytesDeterminedExactly`). The replay
  journal keeps its line ends while reading and does not have this freedom.
- A request with bytes behind it is not always refused: it is accepted exactly when its last byte ends
  a TLS record and nothing more has arrived (`HttpFraming.RequestAcceptedExactly`,
  `HttpFraming.SurplusRequestDepends`). For responses every surplus or missing byte is refused.
- The session data rules and the journal do not agree on time everywhere: an EXPIRED described between
  the end of a session and the end of its binding's window is too early for the journal
  (`SessionTransitions.JournalGrantsExactly`, `SessionTransitions.DescribedExactly`); a session of one
  hour in a window of five is an example (`SessionTransitions.OneHourSession`, `SessionTransitions.EarlyExpiry`).
- A retained snapshot does not always rebuild its transcript: it does exactly when the transcript holds
  no receipt chunk (`BrokerHistory.RebuiltExactly`), which a pending action guarantees; STARTED and one
  chunk are the shortest run for which it does not (`BrokerHistory.ChunkIsLost`).

## Model

| member | source | states |
|---|---|---|
| `CanonicalJson.DocumentOfEncoded` | src/harness_conformance/canonical.py:127-151 | printing any sorted document and reading it strictly gives that document back |
| `CanonicalJson.EncodeInjective` | src/harness_conformance/canonical.py:127-135 | different values never share a canonical text, so a digest of the text pins the value |
| `CanonicalJson.EncodePrintable` | src/harness_conformance/canonical.py:127-135 | canonical text contains no control character, hence no raw line end, whatever its strings hold |
| `Lines.ConcatOfSplit` | src/harness_conformance/live_replay_store.py:129-134 | splitting a file into lines with their terminators loses no byte |
| `CivilTime.DaysOfCivil` | probes/enforcement/common/src/time.rs:51-71 | every day number converts to a valid date whose day number it is |
| `CivilTime.CivilOfDays` | probes/enforcement/common/src/time.rs:51-71 | every valid proleptic Gregorian date is recovered from its day number |
| `CivilTime.EpochIsDayZero` | probes/enforcement/common/src/time.rs:51-71 | 1970-01-01 is day 0 |
| `CivilTime.DaysFollowCalendar` | probes/enforcement/common/src/time.rs:37-59 | the day after a date, read off month lengths and leap years, has the next day number |
| `CivilTime.EarlierIsFewerDays` | probes/enforcement/common/src/time.rs:51-59 | dates earlier in the calendar have smaller day numbers |
| `CivilTime.FormatOfFields` | probes/enforcement/common/src/time.rs:6-35 | a text that passes the field checks is what its own time formats to, so the final comparison of parse_utc never refuses |
| `CivilTime.ParseOfFormat` | probes/enforcement/common/src/time.rs:6-35 | every time in the years 0000 to 9999 is read back from its text |
| `CivilTime.ParseAcceptsExactly` | probes/enforcement/common/src/time.rs:6-35 | parse_utc accepts exactly those texts and returns the seconds they were formatted from |
| `CivilTime.TextOrderIsTimeOrder` | src/harness_conformance/live_mutation_admission.py:933-935 | for accepted texts, order as raw text is order in time, which the raw comparison of observation times relies on |
| `Instants.WholeTimesAgree` | src/harness_conformance/linux_readiness.py:79-82 | on whole seconds the Python reader of times and the Rust one give the same instant |
| `Instants.FractionStaysInside` | src/harness_conformance/linux_readiness.py:79-82 | a fractional time lies within the second its whole part names |
| `Instants.FractionCounts` | src/harness_conformance/linux_readiness.py:79-82 | a time with one to six fraction digits is accepted exactly when its whole part is, and its digits count as that many tenths, hundredths, down to millionths of a second |
| `Instants.OnlyTheseTimes` | src/harness_conformance/linux_readiness.py:79-82 | whatever is accepted has that form or is a whole second |
| `ReplayJournal.ParseJournal` | src/harness_conformance/live_replay_store.py:129-158 | the line loop accepts exactly the files whose rows replay, with the last row per key, last digest and row count |
| `ReplayJournal.AcceptedRows` | src/harness_conformance/live_replay_store.py:129-158 | acceptance of a file is replay of the rows it holds |
| `ReplayJournal.RowsDetermineBytes` | src/harness_conformance/live_replay_store.py:129-140 | an accepted journal is byte for byte the printed form of its rows |
| `ReplayJournal.LifeOfKey` | src/harness_conformance/live_replay_store.py:129-158 | in an accepted journal every key is reserved first, follows the edge table with one binding and non-decreasing times, and the map holds its last row |
| `ReplayJournal.LegalLifeIsShort` | src/harness_conformance/live_replay_store.py:25-30 | such a life has at most three rows and only its last can be terminal |
| `ReplayJournal.LastDigestPinsJournal` | src/harness_conformance/live_replay_store.py:129-158 | equal final digests of non-empty accepted journals mean equal journals unless two of their rows collide |
| `ReplayJournal.LastDigestPinsBytes` | src/harness_conformance/live_replay_store.py:129-158 | the same for the bytes of two files |
| `ReplayJournal.KeyIgnoresTheRest` | src/harness_conformance/live_replay_store.py:37-41 | the replay key depends on tenant and nonce only, never on release, digests or window |
| `ReplayJournal.KeyPinsTenantAndNonce` | src/harness_conformance/live_replay_store.py:37-41 | equal keys mean equal tenant and nonce unless the two key texts collide |
| `ReplayJournal.NeverReservedAgain` | src/harness_conformance/live_replay_store.py:169-185 | a key that occurs in the journal is refused as a replay under every binding with its tenant and nonce |
| `ReplayJournal.AppendAccepted` | src/harness_conformance/live_replay_store.py:169-207 | the row a transaction decides on yields a file its own parser accepts, with exactly this key moved |
| `ReplayJournal.CrashSafe` | src/harness_conformance/live_replay_store.py:169-207 | a crash inside the append leaves the old journal, the whole new one, or bytes the parser refuses |
| `ReplayJournal.Journal.Record` | src/harness_conformance/live_replay_store.py:169-207 | each outcome of a transaction for every binding, state, time and storage fault: refusals change nothing, success is durable, doubt poisons |
| `ReplayJournal.RecordedIsDurable` | src/harness_conformance/live_replay_store.py:169-207 | success means that the file with the new bytes is accepted, that its last row is this key's, in the state asked for, and that no other key moved |
| `ReplayJournal.SettledMeans` | src/harness_conformance/live_replay_store.py:192-207 | a transaction wrote its whole line and succeeded, or refused and left either nothing or a poisoned object behind; a poisoned object never writes |
| `JournalRules.AcceptedExactly` | src/harness_conformance/live_replay_store.py:129-158 | behind accepted rows a row is accepted if and only if it links to the last one, is well formed, and continues its key's rows: reserved first, then RUNNING or an end other than COMPLETED, then after RUNNING any end, with one binding and no earlier time |
| `JournalRules.FileAcceptedExactly` | src/harness_conformance/live_replay_store.py:129-158 | the same for the file: one more printed row is accepted if and only if there is room for it and it may follow |
| `JournalRules.RecordExactly` | src/harness_conformance/live_replay_store.py:169-195 | a transaction grants a request, with exactly this row, if and only if the key's rows, the binding's window and the receipt allow it and the file has room; it reports a full file exactly when room alone is missing |
| `SessionRuns.RunSafe` | src/harness_conformance/live_supervisor.py:87-225 | the invariant of all calls holds in every run: any calls in any order, whatever clocks, boundary, storage and other journal writers do |
| `SessionRuns.RunFollowsProtocol` | src/harness_conformance/live_supervisor.py:87-225 | the events of every run are accepted by the protocol automaton |
| `SessionRuns.ReservationComesFirst` | src/harness_conformance/live_supervisor.py:103-143 | in every run the first event is the one reservation; a refused one is the only event |
| `SessionRuns.EachCaseAtMostOnce` | src/harness_conformance/live_supervisor.py:151-179 | no run executes a case twice |
| `SessionRuns.TerminalRowIsLast` | src/harness_conformance/live_supervisor.py:181-212 | a terminal row is the last event of a run, so there is at most one, and it stands directly behind a proven cleanup |
| `SessionRuns.CompletedMeansTenPasses` | src/harness_conformance/live_supervisor.py:151-212 | COMPLETED is attempted only with a PASS receipt of each of the ten cases before it |
| `SessionRuns.RulesAlwaysMet` | src/harness_conformance/live_supervisor.py:87-225 | in every run, after the reservation the journal refuses a row only for storage reasons, never for its edge, rollback or expiry rules |
| `SessionRuns.NothingUnseen` | src/harness_conformance/live_supervisor.py:87-225 | a call only adds events, and the file gains exactly the bytes its journal events report; what is not an event did not happen |
| `SessionRuns.FileIsTheTrace` | src/harness_conformance/live_supervisor.py:87-225 | in every run without other writers the file is the old one followed by the bytes of the journal events in order |
| `SessionRuns.OverForGood` | src/harness_conformance/live_supervisor.py:103-149 | once a session is over no call of the machine has any effect, and no handle works again |
| `SessionRuns.TimelyRowsMeetTheRules` | src/harness_conformance/live_replay_store.py:169-195 | the session machine's own time and transition rules imply the journal's |
| `SessionRuns.OpenMeans` | src/harness_conformance/live_supervisor.py:103-143 | a used machine refuses without effect; success is a running session with a new handle; every failure leaves no session |
| `SessionRuns.ExecuteMeans` | src/harness_conformance/live_supervisor.py:151-179 | without the live handle nothing happens; otherwise exactly this case is added on a PASS receipt, or the session is over and an answer means a written terminal row |
| `SessionRuns.TerminateMeans` | src/harness_conformance/live_supervisor.py:181-212 | the session is gone whatever happens; a row is written only with sound clocks and a proven cleanup, and success is that row |
| `SessionRuns.CancelMeans` | src/harness_conformance/live_supervisor.py:214-221 | with nothing in between, only the live handle cancels, and once the boundary was interrupted the session is gone and success is a written row |
| `SessionRuns.CloseMeans` | src/harness_conformance/live_supervisor.py:223-225 | closing leaves no session; for an open one success is a written row, and otherwise nothing happens |
| `SessionRules.ExecuteExactly` | src/harness_conformance/live_supervisor.py:151-179 | how far a case gets, with which boundary calls, for all clocks and answers; without a valid receipt in time the session ends as FAILED, a PASS other than the tenth keeps it going with that receipt added, the tenth ends it as COMPLETED and any other status as FAILED |
| `SessionRules.TerminateExactly` | src/harness_conformance/live_supervisor.py:181-212 | the end of a session: nothing is claimed unless both clocks are sound and the cleanup is proven; then the row says EXPIRED exactly from the end of the window on, else FAILED exactly from the deadline on, and the wanted state before both, with the digest of the receipts |
| `SessionRules.CloseExactly` | src/harness_conformance/live_supervisor.py:223-225 | closing an open session ends it in that way as FAILED |
| `SessionRules.CancelExactly` | src/harness_conformance/live_supervisor.py:214-221 | cancelling with the live handle ends it in that way as CANCELLED once the boundary was interrupted |
| `SessionRules.SoundEndIsRecorded` | src/harness_conformance/live_supervisor.py:181-212 | in every reachable session, sound clocks, a proven cleanup and sound storage leave exactly that row and a success, unless the journal is full, which is then the answer |
| `SessionRules.TenPassesAreCompleted` | src/harness_conformance/live_supervisor.py:151-212 | in every reachable session the tenth PASS, in time and with sound storage, is recorded as COMPLETED; only a full journal prevents it |
| `SessionRules.OutcomeTells` | src/harness_conformance/live_supervisor.py:211-212 | the digest in a terminal row is that of the document holding the state, the receipt digest of every case kept and nothing else |
| `SessionRules.OpenExactly` | src/harness_conformance/live_supervisor.py:103-143 | an unused machine tries the reservation exactly for an admissible binding, and runs exactly when clocks, boundary and journal then allow it; its deadline is the end of the window or fifteen minutes ahead, whichever is first |
| `Supervisor.Lifecycle.Open` | src/harness_conformance/live_supervisor.py:103-143 | the object's call is exactly the modelled step, keeps the invariant, only adds events, and writes only their bytes |
| `Supervisor.Lifecycle.ExecuteFixed` | src/harness_conformance/live_supervisor.py:151-179 | the same for one case |
| `Supervisor.Lifecycle.Terminate` | src/harness_conformance/live_supervisor.py:181-212 | the same for the end of a session, with the reason that is raised |
| `Supervisor.Lifecycle.Cancel` | src/harness_conformance/live_supervisor.py:214-221 | the same for cancelling with nothing in between |
| `Supervisor.Lifecycle.CancelHeld` | src/harness_conformance/live_supervisor.py:219-221 | the same for the part under the mutex, whatever happened since the boundary was interrupted |
| `Supervisor.Lifecycle.Close` | src/harness_conformance/live_supervisor.py:223-225 | the same for closing |
| `SessionTransitions.TablesAgree` | src/harness_conformance/live_session.py:26-32 | between journal states the two separately written transition tables are equal |
| `SessionTransitions.ReservationAgrees` | src/harness_conformance/live_session.py:133-147 | every reservation the data rules describe is one the journal grants to an unused key |
| `SessionTransitions.JournalGrantsExactly` | src/harness_conformance/live_session.py:133-153 | a described transition is granted by the journal if and only if it is not an EXPIRED before the end of the binding's window |
| `SessionTransitions.DescribedExactly` | src/harness_conformance/live_session.py:133-153 | a granted transition is described by the data rules if and only if the session is not over or the transition is EXPIRED |
| `SessionTransitions.EarlyExpiry` | src/harness_conformance/live_session.py:133-153 | whenever a session ends before its binding's window, the EXPIRED the data rules describe in between is refused by the journal as too early |
| `SessionTransitions.LateFailure` | src/harness_conformance/live_session.py:133-153 | there the journal still grants FAILED, which the data rules no longer describe |
| `SessionTransitions.OneHourSession` | src/harness_conformance/live_session.py:108-121 | such sessions exist: one of an hour in a window of five, with the times of 2026-01-01 as the source reads them |
| `SessionTransitions.MovingMeansCurrent` | src/harness_conformance/live_session.py:123-153 | a session that may move other than to EXPIRED also passes the currency check |
| `AdmissionHistory.ReplayConsistent` | src/harness_conformance/live_mutation_admission.py:447-551 | the running variables of the ledger parser always agree with what the rows themselves say about every key |
| `AdmissionHistory.OneReservationHeld` | src/harness_conformance/live_mutation_admission.py:505-512 | in every accepted ledger at most one reservation is held |
| `AdmissionHistory.ReleasedMeansTenCleanCases` | src/harness_conformance/live_mutation_admission.py:513-548 | a released reservation ran each of the ten cases exactly once, each last recorded as CLEAN, with receipts chained by digest and no intent at all |
| `AdmissionHistory.KeyNeverReservedAgain` | src/harness_conformance/live_mutation_admission.py:503-515 | a key that occurs in the ledger can never be reserved again |
| `AdmissionHistory.IntentHoldsForever` | src/harness_conformance/live_mutation_admission.py:447-551 | once an intent is on the books its reservation is held in every accepted extension, and every further row is a resource row or receipt of that same case |
| `AdmissionResources.ReplayBooked` | src/harness_conformance/live_mutation_admission.py:447-479 | the resource entries of a reservation are exactly what its intent and confirmation rows say |
| `AdmissionResources.IntentsOneAtATime` | src/harness_conformance/live_mutation_admission.py:461-468 | before the next intent of a reservation the previous one was confirmed; objects and manifests never repeat, action numbers grow within a case |
| `AdmissionResources.ConfirmationHasItsIntent` | src/harness_conformance/live_mutation_admission.py:469-479 | every confirmation answers an earlier intent in all but the assigned identity, and no uid is assigned twice |
| `AdmissionResources.ReceiptListsEveryIntent` | src/harness_conformance/live_mutation_admission.py:526-548 | a receipt recorded after an intent is never clean and lists that object with its manifest and its confirmed uid, or none |
| `AdmissionRules.AcceptedExactly` | src/harness_conformance/live_mutation_admission.py:447-551 | behind accepted rows a row is accepted if and only if the rows allow it: linked by sequence and digest, of its key's binding and no earlier time; a new key when every earlier one ran ten cases with last receipts CLEAN; a case, receipt, intent or confirmation exactly when the runs, receipts and intents so far admit it |
| `AdmissionRules.FileAcceptedExactly` | src/harness_conformance/live_mutation_admission.py:482-551 | the same for the file: one more printed row is accepted if and only if it fits the bounds and the rows in the file allow it |
| `AdmissionRules.DecidedExactly` | src/harness_conformance/live_mutation_admission.py:559-610 | a transaction over an accepted file has a row to append, and exactly the next link for this request, if and only if that row fits and may follow |
| `AdmissionLog.ParseReservations` | src/harness_conformance/live_mutation_admission.py:482-551 | the line loop with its three running variables computes exactly the replay of the file |
| `AdmissionLog.AcceptedRows` | src/harness_conformance/live_mutation_admission.py:482-551 | acceptance of a file is replay of the rows it holds |
| `AdmissionLog.AppendAccepted` | src/harness_conformance/live_mutation_admission.py:559-610 | one more printed row is accepted if and only if it fits the bounds and steps the ledger, and then the file means exactly that step |
| `AdmissionLog.CrashSafe` | src/harness_conformance/live_mutation_admission.py:559-610 | a crash inside the append leaves the old ledger, the whole new file, or bytes the parser refuses |
| `AdmissionLog.CarriageReturnReadsTheSame` | src/harness_conformance/live_mutation_admission.py:482-488 | for every ledger and row, a record ended by carriage return and line feed reads as the one ended by a line feed |
| `AdmissionLog.CarriageReturnAccepted` | src/harness_conformance/live_mutation_admission.py:482-488 | whenever a row steps the ledger and two more bytes fit, the file that ends it with a carriage return and a line feed is accepted as exactly that step and is not what its rows print |
| `AdmissionLog.BytesDeterminedExactly` | src/harness_conformance/live_mutation_admission.py:482-488 | an accepted file is the printed form of its rows if and only if it holds no carriage return |
| `AdmissionLog.Log.Record` | src/harness_conformance/live_mutation_admission.py:559-575 | refusals leave file and object as they were, success is durable, any doubt after the first byte poisons the object |
| `AdmissionLog.Log.RecordResource` | src/harness_conformance/live_mutation_admission.py:577-610 | a resource row is appended only to the exact retained history, only as derived from the profile, and with the same durability and poisoning |
| `AdmissionCodec.RowRead` | src/harness_conformance/live_mutation_admission.py:482-501 | every ledger row is read back from its canonical document |
| `Profiles.ResourceUnits` | src/harness_conformance/live_mutation_admission.py:348-360 | the unit loop returns the six sums over all manifests and refuses exactly when one leaves the safe integers |
| `Profiles.CheckResources` | src/harness_conformance/live_mutation_admission.py:170-211 | the resource loop of profile validation and the comparisons behind it accept exactly distinct, correctly digested, well-shaped manifests in scope, with exact grants, API rules and images, whose sums fit the quota |
| `Profiles.OwnedHasManifest` | src/harness_conformance/live_mutation_admission.py:434-440 | every digest a binding assigns has its manifest in the profile, so the lookup cannot run dry |
| `ProfileRules.PrintedLimitsCount` | src/harness_conformance/live_mutation_admission.py:348-360 | a manifest counts as one object of its kind and, for a Pod, as the three numbers its limits print; nothing else |
| `ProfileRules.LimitsArePrinted` | src/harness_conformance/live_mutation_admission.py:188-195 | the limits of a well-shaped Pod are printed positive numbers: millicores of up to seven digits, bytes of up to fifteen |
| `ProfileRules.ManifestsInScope` | src/harness_conformance/live_mutation_admission.py:170-200 | each manifest of a valid profile is the text its digest names, stands in the profile's namespace with the labels of its tenant and run, takes over no object that was there, and runs as the profile's service account or selects those labels |
| `ProfileRules.OwnsExactly` | src/harness_conformance/live_mutation_admission.py:434-438 | a case owns a digest if and only if it lists it, no digest is listed twice, in one case or in two, and the ten cases together list exactly the digests of the profile |
| `ProfileRules.RecordExactly` | src/harness_conformance/live_mutation_admission.py:419-444 | an action has a resource record if and only if reservation, profile and broker binding speak of the same run, the case owns the manifest, and an object, if there is one, is that manifest as created |
| `ObservedObjects.CreatedObjectRecognised` | src/harness_conformance/live_mutation_admission.py:363-378 | a manifest with the members the API server assigns put into it is recognised, with exactly the uid and version assigned |
| `ObservedObjects.OnlyCreatedRecognised` | src/harness_conformance/live_mutation_admission.py:363-378 | conversely whatever is recognised is the manifest with these assigned members put in, a creation time or none, and nothing else added, changed or removed |
| `Conservation.IntentNamesItsManifest` | src/harness_conformance/live_mutation_admission.py:419-444 | an intent row names kind and name of exactly the manifest its digest selects |
| `Conservation.IntentsStayWithinQuota` | src/harness_conformance/live_mutation_admission.py:419-468 | the units of all distinct intents of a reservation are within the profile's sums, its quota, and together with the used amount within every accepted observation's hard limit |
| `BrokerTranscript.Parser.Receive` | src/harness_conformance/live_mutation_admission.py:672-745 | one frame: accepted with exactly the specified state change, or refused and poisoned; a closed parser refuses unchanged |
| `BrokerTranscript.Parser.ServerFrame` | src/harness_conformance/live_mutation_admission.py:747-754 | the frame built for the server is accepted as the next of its own transcript or poisons it |
| `BrokerHistory.FinishedShape` | src/harness_conformance/live_mutation_admission.py:672-745 | every finished transcript is STARTED, pairs of action and result, chunks in order, CLEANUP, TERMINAL, with at most 256 pairs, 171 chunks and 686 frames |
| `BrokerHistory.ActionsAreOwned` | src/harness_conformance/live_mutation_admission.py:689-695 | all actions of a transcript have different numbers and concern manifests of its case |
| `BrokerHistory.ResultAnswersItsAction` | src/harness_conformance/live_mutation_admission.py:696-708 | every result directly follows its action: CREATED only after CREATE, PRESENT or ABSENT only after GET, DELETED only after DELETE, DENIED and AMBIGUOUS after any, with an object exactly for CREATED and PRESENT |
| `BrokerHistory.CleanupInScope` | src/harness_conformance/live_mutation_admission.py:716-728 | a recorded cleanup lists only manifests of the case, each object once, and is CLEAN exactly when empty |
| `BrokerHistory.CapNeverBinds` | src/harness_conformance/live_mutation_admission.py:672-688 | the schema's sequence bound of 2048 is never what refuses a frame |
| `BrokerHistory.CompletedMeansClean` | src/harness_conformance/live_mutation_admission.py:729-738 | COMPLETED implies a clean cleanup with nothing remaining and no denied or ambiguous result anywhere |
| `BrokerHistory.ReceiptIsWhatWasSent` | src/harness_conformance/live_mutation_admission.py:709-758 | the receipt is the data of the chunk frames in order, of the stated size and digest |
| `BrokerHistory.FramesChain` | src/harness_conformance/live_mutation_admission.py:675-688 | every accepted frame carries its place, the digest of its predecessor, the dispatch, the execution and its direction |
| `BrokerHistory.RefusalIsAbsorbing` | src/harness_conformance/live_mutation_admission.py:672-745 | a poisoned parser stays poisoned and a finished one unchanged, whatever arrives |
| `BrokerHistory.RebuiltExactly` | src/harness_conformance/live_proxy_server.py:4511-4533 | a snapshot rebuilds its transcript if and only if the transcript holds no chunk, which any pending action implies |
| `BrokerHistory.ChunkIsLost` | src/harness_conformance/live_proxy_server.py:4511-4533 | the run of STARTED and one chunk is accepted, and its snapshot rebuilds neither the transcript nor itself |
| `BrokerHistory.SnapshotSimulates` | src/harness_conformance/live_proxy_server.py:4511-4533 | while an action is pending, accepting a frame on the rebuilt and on the original transcript fails on both or gives the same snapshot |
| `BrokerRules.AcceptedExactly` | src/harness_conformance/live_mutation_admission.py:672-745 | after an accepted transcript a frame is accepted if and only if it is in bounds, the next link from the right side, and its kind fits what was sent: each outcome after its verb, chunks in order, one cleanup in scope, a verdict on exactly the sent receipt |
| `CreateRuns.RunSafe` | src/harness_conformance/live_proxy_server.py:3463-3614 | the invariant of all seven steps holds in every run, whatever fails and in whatever order they are called |
| `CreateRuns.EffectsFollowTheLedger` | src/harness_conformance/live_proxy_server.py:3498-3614 | at most one API request and one result per run, in that order: the request only after its exact intent is durable, the result only after the confirmed identity is |
| `CreateRuns.PinIsTheLedger` | src/harness_conformance/live_proxy_server.py:3893-3947 | between successful steps the retained history pin is the stored ledger, which the parser accepts |
| `CreateRuns.FailureIsFinal` | src/harness_conformance/live_proxy_server.py:3498-3614 | after any failure no later step succeeds or changes file, transcript, records or effects |
| `CreateRuns.NothingRolledBack` | src/harness_conformance/live_proxy_server.py:3498-3614 | no step takes back a stored byte, an effect or an accepted frame |
| `CreateRuns.AdvanceMismatchNeverFires` | src/harness_conformance/live_proxy_server.py:4630-4645 | after a delivered result the retirement's mismatch check cannot fire, and with passing guards retirement succeeds |
| `CreateRuns.RetiredIsComplete` | src/harness_conformance/live_proxy_server.py:4589-4647 | a retired CREATE made its one request and sent its one result, and no further step succeeds |
| `CreateRules.RequestNamesItsIntent` | src/harness_conformance/live_proxy_server.py:4284-4299 | in every run a request posts to the path of its kind (pods, configmaps or services) in its namespace the canonical text of the profile's manifest whose kind, namespace, name and digest stand in a durable, unconfirmed intent |
| `CreateRules.RequestExactly` | src/harness_conformance/live_proxy_server.py:4284-4299 | a recordable action has its request if and only if no two rows of the profile carry its digest; every other check of the request is implied |
| `CreateRules.RequestExists` | src/harness_conformance/live_proxy_server.py:4284-4299 | so it has one unless two manifests of the profile collide |
| `CreateRules.IntentSucceeds` | src/harness_conformance/live_proxy_server.py:3893-3947 | with passing checks and sound storage the intent step writes its row, moves the pin and succeeds |
| `CreateRules.ExchangeSucceeds` | src/harness_conformance/live_proxy_server.py:4246-4282 | then the request is sent once and an answer that is the created object is kept |
| `CreateRules.CreatedSucceeds` | src/harness_conformance/live_proxy_server.py:4337-4397 | then the confirmation is written behind the intent |
| `CreateRules.ResultSucceeds` | src/harness_conformance/live_proxy_server.py:4468-4533 | then the result is sent, because the protocol takes it in every transcript that waits for this action |
| `CreateRules.RetirementSucceeds` | src/harness_conformance/live_proxy_server.py:4589-4647 | then the connection is closed and the transcript waits for the next action |
| `CreateRules.CourseCompletes` | src/harness_conformance/live_proxy_server.py:3463-3614 | from a fresh pipeline with a pending CREATE this course begins with the connection and ends retired, with both rows in the file and the two effects, each behind its row |
| `CreateBroker.Broker.RecordCreateIntent` | src/harness_conformance/live_proxy_server.py:3893-3947 | the object's intent step is exactly the modelled one for every guard and storage fault |
| `CreateBroker.Broker.ExchangeApiCreate` | src/harness_conformance/live_proxy_server.py:4246-4282 | the same for the one request and its response |
| `CreateBroker.Broker.RecordApiCreated` | src/harness_conformance/live_proxy_server.py:4337-4397 | the same for the durable confirmation |
| `CreateBroker.Broker.SendCreateResult` | src/harness_conformance/live_proxy_server.py:4468-4533 | the same for the result computed on a detached transcript |
| `CreateBroker.Broker.RetireCreateResult` | src/harness_conformance/live_proxy_server.py:4589-4647 | the same for the retirement on the original transcript |
| `CreateBroker.Broker.Poll` | src/harness_conformance/live_proxy_server.py:3846-3890 | the same for one inbound frame |
| `CodeMaps.ElfCodeLayout` | src/harness_conformance/live_proxy_server.py:96-145 | the header loop computes exactly the specified code segments or refuses |
| `CodeMaps.LayoutHasEveryLoad` | src/harness_conformance/live_proxy_server.py:110-145 | every executable load has its page-rounded segment, every segment comes from one, and no executable page is anonymous or writable |
| `CodeMaps.LoadsDisjoint` | src/harness_conformance/live_proxy_server.py:123-131 | the loads of an accepted file, executable or not, are in address order and do not overlap in memory |
| `CodeMaps.ProcCodeMaps` | src/harness_conformance/live_proxy_server.py:148-193 | the line loop returns exactly the executable file mappings, or refuses |
| `CodeMaps.MapsAscend` | src/harness_conformance/live_proxy_server.py:148-193 | accepted mappings are in whole pages, in order and disjoint; no executable line is dropped, writable or anonymous |
| `CodeMaps.KernelLinesSpecial` | src/harness_conformance/live_proxy_server.py:176-185 | an executable line of the kernel is the vdso at its announced address or the one vsyscall page |
| `CodeRules.CodeLayoutExactly` | src/harness_conformance/live_proxy_server.py:96-145 | a file is accepted if and only if its headers lie in it and do not wrap, no stack is executable, loads are ordered and congruent, executable loads are not writable, not empty and without anonymous pages, and one to sixteen distinct segments result; these are then the executable loads in header order |
| `CodeRules.CodeMapsExactly` | src/harness_conformance/live_proxy_server.py:148-193 | the lines of a process are accepted if and only if they are ascending whole pages, none writable and executable, each of at most 256 executable ones a file or a kernel page at its place, one of them the vdso and one a file; the mappings are then the executable file lines |
| `CodeRules.ProcessExactly` | src/harness_conformance/live_proxy_server.py:1580-1621 | for files enrolled with disjoint code ranges, a process is accepted if and only if each mapping is of an enrolled file with its identity, all mappings of that file are an exact split of its code at one permitted bias, and its loader is mapped |
| `MapMatcher.MatchFile` | src/harness_conformance/live_proxy_server.py:1601-1618 | the two nested loops accept exactly when the specified tiling consumes all mappings of the file |
| `MapMatcher.AcceptedIsExactSplit` | src/harness_conformance/live_proxy_server.py:1601-1618 | acceptance means an exact split of all segments at one page-aligned, non-negative bias, zero for a fixed-address file |
| `MapMatcher.AcceptsExactlyTheSplits` | src/harness_conformance/live_proxy_server.py:1601-1618 | for segments in disjoint file ranges, acceptance is equivalent to the existence of such a split |
| `MapMatcher.MatchMaps` | src/harness_conformance/live_proxy_server.py:1580-1621 | a process is accepted exactly when all its code files are enrolled, each is matched with its whole layout, and loaders are present |
| `MapMatcher.EveryCodeByteMapped` | src/harness_conformance/live_proxy_server.py:1580-1621 | every byte of every executable load, zero-filled tail included, is at its link address plus the bias in exactly one mapping that shows its file offset, and no mapping is left over |
| `MapMatcher.EveryMappedFileIsWhole` | src/harness_conformance/live_proxy_server.py:1580-1621 | in an accepted process every mapped file is whole at one permitted bias: each code byte in exactly one of all mappings, and no mapping of the file left over |
| `MapMatcher.MatchLines` | src/harness_conformance/live_proxy_server.py:1580-1621 | the whole call on the lines of a maps file: they parse, and their mappings match |
| `MapMatcher.EveryCodeLineAccounted` | src/harness_conformance/live_proxy_server.py:1580-1621 | every executable line of an accepted process is a kernel page at its place, or shows code of an enrolled file all of which is in memory at that file's one bias |
| `Seccomp.SeccompProgram` | src/harness_conformance/live_linux_boundary.py:238-259 | the generator's loop emits exactly the specified program for the two machines and refuses others |
| `Seccomp.ProgramMeansPolicy` | src/harness_conformance/live_linux_boundary.py:238-259 | run by a BPF interpreter, the program for any denied list returns on any call exactly the policy's verdict |
| `Seccomp.ProgramWellFormed` | src/harness_conformance/live_linux_boundary.py:238-259 | its jumps go forward, stay inside and fit eight bits, and it ends in a return |
| `Seccomp.MaskIsTheSevenFlags` | src/harness_conformance/live_linux_boundary.py:30-38 | the namespace mask catches exactly the seven namespace flags |
| `Seccomp.AllowedCalls` | src/harness_conformance/live_linux_boundary.py:238-259 | on both machines, exactly which calls are allowed, and that clone3 is answered as missing |
| `Seccomp.DeniedByName` | src/harness_conformance/live_linux_boundary.py:36-37 | on both machines the denied numbers are those of sixteen named calls in the Linux ABI, and clone and audit numbers are the machine's |
| `Der.DerItems` | src/harness_conformance/live_proxy_client.py:59-77 | the offset loop computes exactly the specified rows; the offset strictly increases |
| `Der.SplitThenEncode` | src/harness_conformance/live_proxy_client.py:59-77 | the slices of an accepted input concatenate to it, and re-encoding its rows minimally gives it back |
| `Der.EncodeThenSplit` | src/harness_conformance/live_proxy_client.py:59-77 | every encoded list within the bounds is split into that list |
| `Der.AcceptsExactlyEncodings` | src/harness_conformance/live_proxy_client.py:59-77 | the accepted inputs are exactly the minimal encodings within the bounds |
| `HttpMessages.HeadersRead` | src/harness_conformance/live_proxy_client.py:289-325 | headers written for one of the fixed first lines parse to that line and the body length |
| `HttpMessages.EndOfMessage` | src/harness_conformance/live_proxy_client.py:289-296 | the first empty line of a written message is the one behind its headers, whatever the body holds |
| `HttpMessages.ReadHead` | src/harness_conformance/live_proxy_client.py:299-322 | the header loop with its checks computes exactly the specified first line and length or refuses |
| `HttpRules.HeadersExactly` | src/harness_conformance/live_proxy_client.py:299-325 | headers are accepted, with this first line and body length, if and only if they are short enough, open as the good response or one of the ten requests, and hold exactly the expected fields with these values, in any order and with names in any case |
| `HttpRules.RequestLines` | src/harness_conformance/live_proxy_client.py:320-322 | the ten request lines, word by word |
| `HttpReader.ReadMessage` | src/harness_conformance/live_proxy_client.py:328-349 | the two read loops over the TLS object compute exactly the specified message or refuse |
| `HttpFraming.ResponseIndependentOfRecords` | src/harness_conformance/live_proxy_client.py:328-349 | reading a response depends only on its bytes and close, never on their cut into records |
| `HttpFraming.ResponseMustBeExact` | src/harness_conformance/live_proxy_client.py:336-349 | a response with missing or surplus bytes, or without a proper close, is refused |
| `HttpFraming.ResponseRoundTrip` | src/harness_conformance/live_proxy_client.py:289-349 | a written response is read back for every cut into records, even if its body holds empty lines |
| `HttpFraming.RequestRoundTrip` | src/harness_conformance/live_proxy_client.py:289-349 | a written request with one of the ten fixed lines is read back for every cut into records |
| `HttpFraming.RequestAcceptedExactly` | src/harness_conformance/live_proxy_client.py:328-346 | a request is accepted if and only if it is complete, its last byte ends a record, and nothing more has arrived |
| `HttpFraming.RequestEndsARecord` | src/harness_conformance/live_proxy_client.py:328-346 | in terms of the records: a framed request is accepted if and only if some first records are exactly its bytes |
| `HttpFraming.SurplusRequestDepends` | src/harness_conformance/live_proxy_client.py:336-346 | for every message and surplus, the same bytes are accepted in one cut and refused in another |
| `Budget.SessionBounded` | src/harness_conformance/live_session.py:44-74 | the loop with a returned budget is the specified walk |
| `Budget.AdmissionBounded` | src/harness_conformance/live_mutation_admission.py:36-52 | the loop with a shared budget cell is the same walk under its own charges |
| `Budget.BoundedVisits` | src/harness_conformance/live_session.py:44-74 | a walk looks at no more than maximum + 1 nodes of any object graph, shared, exponential or cyclic |
| `Budget.FittingDocumentsPass` | src/harness_conformance/live_mutation_admission.py:36-71 | the charge of a document is at most its canonical text's length, so what is left of the budget is at least what the text leaves |
| `Budget.NeitherBudgetRefuses` | src/harness_conformance/live_session.py:44-93 | neither of the two pre-checks refuses for its size a document whose canonical text fits |
| `BudgetRules.SessionExactly` | src/harness_conformance/live_session.py:44-74 | a session document passes if and only if it has at most eight levels, safe integers and collections of at most 4096, and its quotes, brackets, separators, characters and scalars fit the maximum |
| `BudgetRules.AdmissionExactly` | src/harness_conformance/live_mutation_admission.py:36-52 | a document at admission passes if and only if it has at most sixteen levels and safe integers, and its values, keys, characters, items and entries fit the maximum |

## Left out

- Signatures, hashing and TLS itself: a digest is a function parameter and the TLS layer a sequence of decrypted records.
- Kernel readers, descriptor custody, object identity and call-stack checks: a guard is a step that may fail.
- Schemas of profiles, observations, bindings and qualification records beyond the bounds and fields the properties use.
- Credential, endpoint, policy and reference-inventory checks of profile validation (live_mutation_admission.py:136-169): conjunctions of equality tests; every statement about valid profiles holds for the fewer that pass these too.
- Campaigns, command line, evidence builders, parity adapters, the other Rust probes: small tables, process launching and files.
- Integer width of the Rust calendar: days and seconds are unbounded integers, so wrap-around at the ends of 64 bits is not modelled; the texts parse_utc accepts stay far inside.
- Unicode normalisation and depth or integer limits of the strict JSON reader: ledger and journal rows hold only texts and numbers inside those limits; `Budget` models the depth and integer limits of the two pre-checks.
- Base64 of receipt chunks and objects: payloads are the bytes they decode to, and the canonical bytes of a frame are a parameter.
- Other writers of the admission ledger between two steps of a CREATE: the run holds the file's exclusive lock. Rows that other processes append to the replay journal come between two calls of a session, not inside one.
- Another session machine on the same journal object: the machine is the only user of its object, though not of its file.
- `CodeMaps.ElfCodeLayout`: takes the program headers as already split into fields and the interpreter path as already read, because the byte offsets and the path pattern are fixed tables.
- `CodeMaps.ProcCodeMaps`: takes each line of the maps file as already split into its fields, because the line pattern is one regular expression.
- `AdmissionLog.Log.Record`: does not model an unlock that fails behind a confirmed read-back, which leaves a durable row, a refused call and an object that is not poisoned; in record_resource the same fault poisons and is the modelled unconfirmed write.
- `ReplayJournal.Journal.Record`: does not model that unlock failure either; all failing checks of a binding carry one reason, and so do all failures before the first byte.
- `Supervisor.Lifecycle.ExecuteFixed`: the receipt validator is an input that says PASS, another status, or a refusal; the closed case-record shape it checks is not modelled.
- `Supervisor.Lifecycle.Cancel`: is cancelling with no other call in between; when execute_fixed ends the session between the interrupt and the mutex, the call is `Supervisor.Lifecycle.Interrupted` followed by that and by `Supervisor.Lifecycle.CancelHeld`, which succeeds without a row, and runs contain the two as separate calls. An interrupt that arrives inside another call is placed before it.
- `CreateBroker.Broker.RetireCreateResult`: says only that it fails if the advance mismatched, because the transcript then stays advanced; `CreateRuns.AdvanceMismatchNeverFires` shows that this cannot occur.
- `CreateRuns.EffectsFollowTheLedger`: is about one CREATE per broker connection, because the code allows one; GET and DELETE have no server pipeline.
