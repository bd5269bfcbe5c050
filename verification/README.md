# A Dafny model of the TTD replay server's GDB layer

The server answers the GDB remote serial protocol for a recorded execution. One
protocol thread owns a replay backend; every resume runs on a worker thread so
that a ^C can abort it. This project models that layer in Dafny and proves what
its comments and tests rely on. There are three parts.

**The replay-worker protocol.** `Runner` is an interleaved transition system of
one protocol thread and any number of workers. Each action touches shared memory
at most once: the load and the store of `request_interrupt` are two actions,
every atomic access, lock and channel operation of `start` and of the worker
body is one, and so are the loads and stores of `end_state`. A job has its own
channel, so an old worker can still be about to send when the next job starts.
`&mut self` and guard lifetimes become a program counter of the protocol thread:
inside one operation it cannot begin another. The step functions follow the
source as listed here.

- `ResumeStep`, `StartStep`: `src/gdb/target.rs:212-303`, `src/gdb/runner.rs:175-191`
- `JobStep`, `HandOffStep`, `Execute`, `Panic`: `src/gdb/runner.rs:191-218`, `src/gdb/target.rs:237-303`
- `InterruptStep`: `src/gdb/runner.rs:241-248`, `src/gdb/session.rs:243-249`
- `Receive`: `src/gdb/runner.rs:224-231`, `src/gdb/target.rs:159-188`
- `QueryStep`, `RestartDone`: `src/gdb/runner.rs:154-156`, `src/gdb/target/extended.rs:17-42`
- teardown: `src/gdb/runner.rs:257-274`

`Runs` extends runs step by step. `RunnerSafety` proves the control invariant. `Ledger` is a sequential
account of a session that knows no threads, locks or channels; `Refinement`
proves that every step of every interleaving keeps it; `LedgerLaws`,
`DeliveryLaws` and `EndStateLaws` prove what the account means over the bare
sequence of events; `Guarantees`, `StopReplies`, `Progress`, `Service`, `Teardown`
and `Sessions` state the results for every reachable state; `ExitRace` and
`Witnesses` show runs that exist.

**Resume semantics.** `Resume` folds `vCont` lists, `Replay` runs operations
against an arbitrary backend, a record of functions of which nothing is assumed.

**Codecs and tables.** `Hex`, `Qrr`, `Radix`, `Texts`, `Checkpoints`, `Commands`,
`Xfer`, `LittleEndian`, `Context`, `Regs` and `Pe`: text is UTF-8 bytes, machine
integers are bounded types, and each direction is proved against its inverse.

## Assumptions

- The atomics are sequentially consistent, as the runner declares them; the
  acquire and release accesses of `end_state` are interleaved the same way.
- A job's backend call returns or panics. Calls the protocol thread makes under
  the lock return.
- `usize` is 64 bits wide.
- A restart whose `goto` fails leaves the backend where it was, as the comment at
  `src/gdb/target/extended.rs:67-69` says. `HandleVrun` is stated for every target;
  only its last clause has this as a hypothesis (`FailureStays`).
- The shipped target is `Cursor.Clamps`: its `goto` never fails and clamps into
  the lifetime (`src/target/process/target_impl.rs:163-176`); the engine then
  settles on a position of the trace, the clamped one if that is in the trace.
- A client that waits for each stop before it resumes is the hypothesis
  `Disciplined`; the results that do not name it hold for every client.

## Where code and documentation disagree

- `src/gdb/session.rs:18-22` and the comment at `src/gdb/target.rs:224-228` say
  that a recorded process exit is reported as `T09` before any `W00`. A ^C stored
  between the exit and the worker's swap makes that stop `T02`, and `W00` still
  follows: `ExitRace.ExitWithoutKill`. `Guarantees.ExitIsShownFirst` gives the
  exact condition: a client that waits for each stop sees a stop of the exiting
  job before any `W00`, and it is `T09` if and only if that job did not panic and
  no request was stored between its reset and its swap.
- `src/gdb/runner.rs:238-240` says `request_interrupt` does nothing without an
  interrupt handle. The code still sets the flag: `ExitWithoutKill` is a run
  without a handle in which a request turns the stop into SIGINT, and
  `Progress.RequestStoresIff` proves that, with or without a handle, a request
  stores the flag if and only if its load saw the runner busy.
- `src/gdb/session.rs:185-188` says the event loop always waits for the worker
  before it leaves the running state, so that a lost backend is a genuine
  failure. A connection that breaks does not wait: `Sessions.LostWithoutHandle`
  and `Sessions.LostByGivingUp` are runs that lose the backend.
  `Teardown.UnwrapSucceedsIff` is the exact condition at the unwrap, and
  `Teardown.TeardownReturns` says that with a handle patience is enough.
- `src/gdb/commands.rs:72-74` promises that a client never believes in a restart
  that did not happen. The shipped target clamps, so a `vRun` past the end of the
  trace is acknowledged while the target stands at the end:
  `Commands.PastTheEnd`. `Commands.RestartLandsIff` is the exact condition: the
  target stands where the text points if and only if that is a position of the
  trace within its lifetime.

## Model

| member | source | states |
|---|---|---|
| `RunnerSafety.StepKeepsControl` | src/gdb/runner.rs:166-221 | every action of either thread keeps: older workers are past their idle store, the flag is true exactly from a start to the newest worker's idle store, the lock is held by whom the program counters say, the receiver belongs to the newest job and is filled only after its send |
| `RunnerSafety.WorkKeepsControl` | src/gdb/runner.rs:191-218 | lock, job, swap, release, drop, idle, send: each worker step, in this order, keeps the invariant, including a late sender whose channel was replaced |
| `RunnerSafety.ClaimKeepsControl` | src/gdb/runner.rs:175-182 | compare-exchange, flag reset and the lock for `begin_resume` keep the invariant; the lock is free |
| `RunnerSafety.LaunchKeepsControl` | src/gdb/runner.rs:182-191 | unlocking, swapping the receiver and spawning keep the invariant |
| `RunnerSafety.QueryKeepsControl` | src/gdb/runner.rs:154-156 | packets served through `try_lock` keep the invariant |
| `Service.IdleRunnerServes` | src/gdb/runner.rs:154-156 | an idle runner serves every packet, whatever leftover workers do: within three own steps and without a wait the table holds the saved checkpoint at the present position, lacks the deleted one, or the restart is recorded where its text points with the backend where the jump led; otherwise nothing changed |
| `Service.BusyRunnerDeclines` | src/gdb/runner.rs:154-156 | a busy one changes nothing |
| `Service.RestartHappens` | src/gdb/target/extended.rs:24-42 | from every session there is a run in which a restart is recorded |
| `Service.IdleRunnerStarts` | src/gdb/runner.rs:175-191 | an idle runner starts the job of every resume within seven own steps: decided, accepted, flag reset and worker spawned, in this order on record |
| `Service.BusyRunnerRefuses` | src/gdb/runner.rs:162-177 | if the job that ran before a resume still runs after it, the resume was refused and no job was added |
| `Witnesses.RefusalHappens` | src/gdb/runner.rs:162-177 | such a refusal exists, and leaves the running job, its channel and the flag alone |
| `Service.RequestsReachTheFlag` | src/gdb/session.rs:230-249 | ^C with nothing buffered, `vCtrlC`, and the end of a session with a busy runner and a handle: once the request is over, and before the first teardown poll, the flag was stored or the runner is idle; after a ^C the event loop goes on only with an idle runner and waits only after the store |
| `Service.CtrlCDrainsFirst` | src/gdb/session.rs:233-242 | a ^C that finds a stop buffered delivers it and asks for nothing |
| `Service.DisconnectGoesStraightOn` | src/gdb/runner.rs:257-258 | without a handle or with an idle runner teardown neither asks nor waits |
| `Guarantees.BackendHasOneOwner` | src/gdb/runner.rs:146-156 | in every reachable state at most one thread is inside the backend; an idle flag implies that no worker holds the lock or a handle; whoever is about to lock finds the lock free |
| `Refinement.StepRefines` | src/gdb/runner.rs:166-248 | every action records only events the sequential ledger allows and keeps the relation between machine state and ledger |
| `Refinement.CheckRefines` | src/gdb/session.rs:243-249 | `on_interrupt` blocks only on a job that still owes its stop |
| `Refinement.SendRefines` | src/gdb/runner.rs:216-217 | the newest worker's send fills the receiver; an older worker's send is lost without effect |
| `Refinement.ReachableIsSound` | src/gdb/runner.rs:112-274 | invariant, balanced event log and relation hold after every run of every session |
| `LedgerLaws.SwapSeesStores` | src/gdb/runner.rs:181-199 | a swap sees the flag exactly when a store fell between that job's reset and the swap |
| `Guarantees.InterruptsAreAttributed` | src/gdb/runner.rs:175-248 | a job that did not panic delivers `on_interrupt`'s result if and only if a store fell between its own reset and its own, single swap; so a late store never reaches another job |
| `Guarantees.StopsAnswerTheirResume` | src/gdb/session.rs:215-249 | every delivered stop belongs to one accepted resume, carries the result its own job finished with, and is the only one for it |
| `Guarantees.StopTellsItsReplay` | src/gdb/target.rs:237-259 | for a replay that did not panic the stop is the mapped reason of the single backend run of that job, on the backend as it left it, or SIGINT there if interrupted |
| `StopReplies.StopReportsItsReason` | src/gdb/mapping.rs:100-148 | for a replay neither interrupted nor panicked: SIGKILL iff process exit or trace end, SIGZERO iff trace start, SIGINT iff interrupted, a watch iff a watchpoint with its address and the kind of its two access bits, SIGABRT, SIGSEGV or SIGTRAP by exception code, SIGTRAP iff anything else or an error, each on the thread the backend was left on |
| `Witnesses.EveryReasonIsShown` | src/gdb/target.rs:237-259 | for every operation and everything a backend run can come to there is a run that shows the client that stop |
| `Witnesses.EveryPanicIsShown` | src/gdb/target.rs:172-188 | and one for every panic, shown as SIGTRAP |
| `Guarantees.NoStopIsDropped` | src/gdb/session.rs:230-249 | the newest job's stop is delivered or still under way (worker, buffer or panic mapping) in every reachable state; a blocked wait can end only with a result |
| `Progress.EveryStopArrives` | src/gdb/session.rs:205-249 | every accepted resume not superseded by another gets its stop: whatever order the workers run in, once they have no step left the next poll, or the blocked wait, delivers it, panic or not |
| `Guarantees.StopIsLostIffSuperseded` | src/gdb/runner.rs:184-185 | swapping the receiver loses exactly the stop that was not delivered before the next job was accepted |
| `DeliveryLaws.DeliveredOnce` | src/gdb/runner.rs:99-101 | no result is delivered twice |
| `DeliveryLaws.LostIffSuperseded` | src/gdb/runner.rs:184-185 | the same over any balanced sequence of events |
| `Progress.WorkerStepDescends` | src/gdb/runner.rs:191-218 | every worker step lowers a measure on all workers and does not move the protocol thread |
| `Progress.WorkerRunsAreBounded` | src/gdb/runner.rs:191-218 | workers alone take no more steps than the measure says |
| `Progress.WorkersAreNeverStuck` | src/gdb/runner.rs:191-218 | while the newest job has not sent, some worker can move |
| `Progress.ProtocolIsNeverStuck` | src/gdb/runner.rs:154-274 | inside any operation the next step of the protocol thread brings its end closer by a rank of at most seven, or it waits, for a result or for an idle runner at teardown, and some worker can move |
| `Progress.OperationsEnd` | src/gdb/runner.rs:154-274 | in every run without a new request the protocol thread takes at most that many steps outside its two waits before its operation is over |
| `Progress.WaitReturns` | src/gdb/runner.rs:229-231 | under every schedule of the workers a blocked `wait_result` stays in place, the workers stop within the bound, and when none can move the result is in the channel |
| `Progress.PanicMappingIsFree` | src/gdb/target.rs:172-196 | mapping a panic takes the backend lock at once |
| `Progress.RequestStoresIff` | src/gdb/runner.rs:241-248 | with or without a handle, and whatever the workers do in between, a request stores the flag iff its load saw the runner busy |
| `EndStateLaws.ResumeChoice` | src/gdb/target.rs:212-236 | every operation but the two reverse ones, range steps included, stops in place iff a restart waits, and is answered with the exit iff none waits and the process end is recorded and not left; otherwise a resume replays its own operation |
| `EndStateLaws.EndStateMeans` | src/gdb/target.rs:229-243 | the end-state flag is true iff a forward replay saw the exit and neither a restart nor a backward resume's store came since |
| `EndStateLaws.PendingMeans` | src/gdb/target.rs:218-223 | the pending flag is true iff a restart happened and no resume was decided since |
| `Guarantees.ExitReplies` | src/gdb/target.rs:212-273 | a delivered stop is `W00` iff its resume was forward, with no restart waiting, at a recorded process exit; the code is 0 and the backend is where it was |
| `Guarantees.ExitRepliesWhenStopped` | src/gdb/target.rs:229-234 | for a client that waits for each answer the same holds with accepted backward resumes as the only other way out |
| `Guarantees.ExitIsNotedIff` | src/gdb/target.rs:240-243 | a replay that did not panic records the exit iff it was forward and its backend returned `ProcessExit` |
| `Guarantees.ExitStop` | src/gdb/mapping.rs:116-126 | the stop of the job that saw the exit is SIGKILL, SIGINT if it was interrupted, SIGTRAP if it panicked |
| `Guarantees.ExitIsShownFirst` | src/gdb/session.rs:18-22 | for a client that waits for each stop, `W00` is preceded by a stop of the job that saw the exit, with no restart or accepted backward resume in between; that stop is SIGKILL iff the job did not panic and no request was stored between its reset and its swap |
| `ExitRace.ExitWithoutKill` | src/gdb/session.rs:18-22 | from every backend state, without a handle, there is a run in which a client that waits for each stop sees `T02`, then `W00`, and never `T09` |
| `Guarantees.RestartIsHonoured` | src/gdb/target.rs:218-224 | the first resume after a restart is decided as a stop in place if forward and as its replay if backward, is accepted and never refused, and is accepted with the backend as the restart left it |
| `EndStateLaws.RestartIsAccepted` | src/gdb/target.rs:218-224 | the same over any balanced sequence of events: what settles that resume is its acceptance |
| `Guarantees.RestartStopsThere` | src/gdb/target.rs:290-303 | the stop delivered for a forward one is SIGTRAP with the backend still as the restart left it, interrupted or not, on the thread selected there unless the job panicked |
| `Guarantees.NamedRestartStopsThere` | src/gdb/target/extended.rs:17-42 | from a restart's text, resolved against the present table, to the client's next stop, under every interleaving: the next event is that restart, with the place asked for and where the jump led, and the next forward resume stops there with SIGTRAP |
| `Guarantees.WaitingClientsAreNotRefused` | src/gdb/runner.rs:175-177 | a client that waits for each stop is never refused a resume |
| `Guarantees.RestartThenReplays` | src/gdb/target.rs:218-244 | the resume after the honoured one, also after backward resumes in between, replays its own operation: no late `end_state` store can make it a `W00` |
| `EndStateLaws.NoLateExit` | src/gdb/target.rs:240-243 | after a restart no process exit is recorded before a forward replay has been decided on |
| `Guarantees.RestartIsHonouredOnce` | src/gdb/target.rs:218-237 | every later resume, too, replays its own operation as long as no restart or exit has come since |
| `Guarantees.RestartStopsInPlace` | src/gdb/target.rs:290-303 | that stop is SIGTRAP, interrupted or panicked or not, with the backend as the last restart left it |
| `EndStateLaws.StopsWhereRestarted` | src/gdb/target/extended.rs:26-41 | a job that stops in place was accepted where the last restart left the backend |
| `Teardown.UnwrapSucceedsIff` | src/gdb/runner.rs:270-273 | unwrapping recovers the current backend iff the newest worker has dropped its handle, which an idle flag implies |
| `Teardown.IdleTeardownRecovers` | src/gdb/runner.rs:257-274 | teardown that sees the runner idle recovers the backend as it is then, however the workers go on |
| `Teardown.OnlyImpatienceLosesTheBackend` | src/gdb/runner.rs:258-269 | with an interrupt handle a whole session loses its backend only by giving up the bounded wait |
| `Teardown.TeardownReturns` | src/gdb/runner.rs:258-274 | under every schedule that does not give up, polls included, the workers stop within the measure; then the runner is idle and at most four steps return the backend |
| `Sessions.TableHistory` | src/gdb/commands.rs:52-66 | over any run of a session the checkpoint table changes by exactly the served inserts and removals, in order |
| `Sessions.RunSession` | src/gdb/session.rs:172-193 | the final backend and table, or the recovery error, according to how teardown ended |
| `Sessions.ServeSessions` | src/gdb/session.rs:114-158 | each session starts from the backend and table the one before it ended with, the first from an empty table; the admitted clients are exactly those of the turns used; only the last session can have lost the backend, and then that is the error |
| `Sessions.LostWithoutHandle` | src/gdb/runner.rs:257-274 | from every backend and table there is a session without a handle that loses the backend although it never gives up |
| `Sessions.LostByGivingUp` | src/gdb/runner.rs:257-274 | and one with a handle that loses it by giving up |
| `Sessions.LossIsPossible` | src/gdb/session.rs:189-192 | so the recovery error is reached in both cases |
| `Sessions.TableSpansSessions` | src/gdb/session.rs:125-144 | after any number of sessions the table is what all their edits make of the empty one |
| `Sessions.CheckpointOutlivesSessions` | src/gdb/session.rs:125-144 | a checkpoint saved in any session is where its printed name restarts to in every later one, until it is deleted, and nowhere after |
| `Sessions.HandedOnBackendIsFinal` | src/gdb/runner.rs:201-217 | workers a session left behind do not change the backend or the table it handed on |
| `Resume.ResumeState.constructor` | src/gdb/resume.rs:36-39 | nothing but a continue is pending |
| `Resume.ResumeState.Take` | src/gdb/resume.rs:44-46 | yields the pending operation and leaves a continue |
| `Resume.ResumeState.Clear` | src/gdb/resume.rs:51-53 | drops whatever is pending |
| `Resume.ResumeState.SetContinue` | src/gdb/resume.rs:61-64 | a continue leaves a pending step alone |
| `Resume.ResumeState.SetStep` | src/gdb/resume.rs:66-68 | the step is pending |
| `Resume.ResumeState.SetRangeStep` | src/gdb/resume.rs:72-78 | a range step is pending, a step when start equals end |
| `Resume.ResumeState.Fold` | src/gdb/resume.rs:41-78 | for every action list the operation is the last action that is no continue, or a continue; a second take yields a continue |
| `Replay.Driver.Step` | src/target.rs:48 | one step of the backend, with its report |
| `Replay.Driver.StepRange` | src/target.rs:82-106 | for every backend the loop terminates at the first step that failed, reported another reason, lost the thread, left the range or did not advance, in that state and with that report |
| `Replay.RangeStepEnds` | src/target.rs:82-106 | such a step exists for every backend, state and range |
| `Replay.InsideUntilHalt` | src/target.rs:96-104 | before it every PC is inside the range and positions strictly increase over any two steps |
| `Replay.Driver.Execute` | src/gdb/target.rs:315-339 | the outcome of the method is the one outcome `Executes` allows, which the five laws below describe |
| `Replay.ExecutesOnce` | src/gdb/target.rs:315-339 | every operation has exactly one outcome on every backend |
| `Replay.OperationsAreDirected` | src/gdb/resume.rs:27-32 | on every target whose calls go the way they say, no forward operation ends before its start and no reverse one after it |
| `Replay.OperationsMarch` | src/gdb/target.rs:319-328 | on every target that stands on a line, a continue ends at its end of the line, a step moves by exactly one, each with the report of that call |
| `Replay.RangeStepWatches` | src/gdb/target.rs:329-337 | a range step is some number of steps of its own thread, all but the last complete, advancing and inside the range, the last not |
| `Replay.OperationsSelect` | src/gdb/target.rs:320-337 | the operations that name a thread leave it current |
| `Replay.FoldingPreservesMeaning` | src/gdb/resume.rs:70-78 | the folded form of a range action has the same outcomes as the range loop on the range as sent |
| `Replay.StepIffEmpty` | src/gdb/resume.rs:70-78 | a range step equals a step on every backend iff its range is empty |
| `Radix.ParsePrint` | src/gdb/checkpoint.rs:20 | printed 64-bit numbers parse back, in both bases |
| `Radix.ParseMeans` | src/gdb/commands.rs:96-98 | parsing accepts exactly the non-empty digit texts, with at most one plus, whose unlimited number fits 64 bits, and yields it |
| `Hex.EncodeHex` | src/gdb/packet.rs:73-80 | the loop writes the encoding |
| `Hex.DecodeHex` | src/gdb/packet.rs:55-68 | the loop computes the decoding, or rejects |
| `Hex.DecodeEncode` | src/gdb/packet.rs:55-80 | decoding undoes encoding |
| `Hex.EncodeDecode` | src/gdb/packet.rs:55-80 | encoding what was decoded is lower-casing |
| `Hex.DecodesIff` | src/gdb/packet.rs:55-68 | exactly the even-length strings of hex digits decode |
| `Texts.LossyFixesNothingIff` | src/gdb/packet.rs:22 | lossy decoding leaves a text alone iff it is valid UTF-8 |
| `Texts.CharactersDecode` | src/gdb/packet.rs:22 | the decoder takes the UTF-8 form of every Unicode character whole |
| `Texts.DecodedIsCharacter` | src/gdb/packet.rs:22 | and nothing else |
| `Texts.LossyReplaces` | src/gdb/packet.rs:22 | what begins no character becomes one U+FFFD |
| `Texts.TrimsWhiteSpace` | src/gdb/commands.rs:86 | trimming takes exactly the white-space characters, at either end |
| `Qrr.ParseQrrCmdArgs` | src/gdb/packet.rs:10-33 | the loops compute the argument list of either style |
| `Qrr.NewFormParses` | src/gdb/packet.rs:17-26 | non-empty colon-free commands and all UTF-8 arguments survive the literal style |
| `Qrr.OldFormParses` | src/gdb/packet.rs:29-32 | non-empty UTF-8 commands and arguments survive the all-hex style, which never looks like the literal one |
| `Qrr.StylesAgree` | src/gdb/packet.rs:10-33 | both styles give the same list |
| `Qrr.LiteralArguments` | src/gdb/packet.rs:17-26 | in the literal style an argument that is not hex is taken as it stands |
| `Qrr.HexTokens` | src/gdb/packet.rs:29-32 | in the all-hex style a token that is not hex is dropped, wherever it stands |
| `Checkpoints.Sanitize` | src/gdb/checkpoint.rs:62-65 | every tab and line end becomes a space, every other byte stays |
| `Checkpoints.CheckpointTable.constructor` | src/gdb/checkpoint.rs:49-54 | an empty table whose first id is 1 |
| `Checkpoints.CheckpointTable.Insert` | src/gdb/checkpoint.rs:58-81 | the new table, the id and the acknowledgement |
| `Checkpoints.CheckpointTable.Remove` | src/gdb/checkpoint.rs:89-91 | the new table, and whether the id was there |
| `Checkpoints.CheckpointTable.Render` | src/gdb/checkpoint.rs:96-112 | the loop writes the listing |
| `Checkpoints.ListingParsesBack` | src/gdb/checkpoint.rs:93-112 | for every history of inserts and removals with any client text, splitting the listing gives the header and one three-field row per live checkpoint, in id order |
| `Checkpoints.RowOfInsert` | src/gdb/checkpoint.rs:58-112 | in any history the n-th insertion has a row until its id is removed and none afterwards: n, the position as printed, and the client's text with tabs and line ends blanked, or "-" |
| `Checkpoints.NextIdCounts` | src/gdb/checkpoint.rs:59-60 | the next id counts insertions, modulo the 64-bit counter |
| `Checkpoints.IdsAreFresh` | src/gdb/checkpoint.rs:34-35 | ids start at 1, and every live id is below the next one |
| `Checkpoints.CheckpointLasts` | src/gdb/checkpoint.rs:58-91 | a checkpoint stays as it was saved until its id is removed and is gone afterwards |
| `Commands.CommandTarget.HandleVrun` | src/gdb/commands.rs:80-128 | for every target: a text that names a place sends the target exactly there and is acknowledged iff the jump succeeds; one that names none is invalid and changes nothing; where failed jumps stay, no rejection moves the target |
| `Commands.RestartLandsIff` | src/target/process/target_impl.rs:163-176 | an acknowledged restart of the clamping target stands where its text points iff that is a position of the trace within the lifetime |
| `Commands.PastTheEnd` | src/target/process/target_impl.rs:163-176 | on a clamping target the text of every position past the end is acknowledged and leaves the target at the end |
| `Commands.RestartAcceptsIff` | src/gdb/commands.rs:90-124 | read as colon-separated fields, a text names a position, the start or a live checkpoint in exactly the listed cases |
| `Commands.BareRestart` | src/gdb/commands.rs:85-109 | a restart without arguments goes to the start of the trace |
| `Commands.BlanksDoNotMatter` | src/gdb/commands.rs:86 | blanks around any text do not change where it points |
| `Commands.PositionRoundTrip` | src/gdb/commands.rs:94-106 | every printed 64-bit position restarts there, leading hex C included |
| `Commands.CheckpointRoundTrip` | src/gdb/commands.rs:108-119 | `c` or `C` with a printed id is that checkpoint's position, if live |
| `Commands.CheckpointRestarts` | src/gdb/commands.rs:108-119 | after any later history a saved checkpoint's name leads to its position until deleted and fails afterwards |
| `Commands.AnswerQrrcmd` | src/gdb/commands.rs:45-68 | the hex reply decodes to the command's text and the table changes as the command says |
| `Commands.AckParses` | src/gdb/checkpoint.rs:74-79 | the words of an acknowledgement give back the id, the position and the client's text |
| `Commands.WhenThenRestart` | src/gdb/commands.rs:55 | in either wire style the answer to `when` restarts at the current position |
| `Commands.SaveThenRestart` | src/gdb/commands.rs:56-60 | in either wire style, saving, reading the id from the reply and restarting leads back |
| `Commands.DeleteById` | src/gdb/commands.rs:62-65 | in either wire style, deleting a printed id removes that checkpoint alone, and says whether it existed |
| `Commands.DeleteNeedsANumber` | src/gdb/commands.rs:62-65 | a deletion without a number in range deletes nothing and says so |
| `Commands.SaveWithoutText` | src/gdb/commands.rs:57 | a checkpoint without a text is saved with an empty one |
| `Commands.InfoLists` | src/gdb/commands.rs:61 | in either wire style and after any history, `info checkpoints` is answered with the header and one three-field row per live checkpoint, and changes nothing |
| `Commands.SavedIsListed` | src/gdb/commands.rs:56-61 | from packet to packet: what a `checkpoint` packet saved is listed by a later `info checkpoints` with its id, its position and its text made harmless, until it is deleted |
| `Commands.OtherCommandsAreEmpty` | src/gdb/commands.rs:51-67 | any other command, and none, gets the empty answer and changes nothing |
| `Xfer.WriteChunk` | src/gdb/xml.rs:27-48 | the count is the integer minimum of what is asked, left and fits, the bytes are the data's, the rest of the buffer stays |
| `Xfer.Fetch` | src/gdb/xml.rs:27-48 | any positive lengths and non-empty buffers reassemble exactly the data in at most one read per byte and one more |
| `LittleEndian.PushU64` | src/ttd/cpp/ttd_cxx.cpp:42-49 | eight bytes, least significant first |
| `LittleEndian.WordOfLe8` | src/ttd/types.rs:347-351 | reading a written word gives it back |
| `Context.PushM128s` | src/ttd/cpp/ttd_cxx.cpp:51-56 | low and high halves of every register in turn |
| `Context.EncodeContext` | src/ttd/cpp/ttd_cxx.cpp:434-472 | the pushes produce the 81-word stream |
| `Context.DecodeContext` | src/ttd/types.rs:341-401 | drawing words one by one computes the decoding, or rejects |
| `Context.DecodeEncode` | src/ttd/types.rs:341-401 | every context survives the stream |
| `Context.EncodeDecode` | src/ttd/types.rs:341-401 | every accepted stream is reproduced byte for byte |
| `Context.AcceptsExactlyEncodings` | src/ttd/types.rs:341-401 | a byte string is accepted iff it is the encoding of some context |
| `Regs.FromTtd` | src/gdb/regs.rs:96-145 | GDB's register file, field by field, from the context and the TEB |
| `Regs.ReadRegister` | src/gdb/regs.rs:262-318 | the reply is the register's image cut to the buffer; the rest of the buffer stays |
| `Regs.ServedFromStream` | src/gdb/regs.rs:96-318 | for every context register that image is the stream bytes that carry it; `fs_base` is zero and `gs_base` the TEB |
| `Regs.ServedInFull` | src/gdb/regs.rs:262-318 | the reply for an integer register, read back, is its whole word of the stream |
| `Regs.NumbersRoundTrip` | src/gdb/regs.rs:209-254 | register numbers and registers correspond one to one |
| `Regs.RegisterFileSize` | src/gdb/regs.rs:24-31 | all registers fill the 536 bytes of the core file and the two bases |
| `Pe.ReadU32` | src/gdb/pe.rs:87-90 | the little-endian value of four bytes, and nothing past the end |
| `Pe.HeaderOfWritten` | src/gdb/pe.rs:64-69 | a header written in the order of the PE format reads back as its section |
| `Pe.SectionsOfTable` | src/gdb/pe.rs:60-69 | and so does every written table |
| `Pe.ExecutableIsBit29` | src/gdb/pe.rs:75-77 | a section is executable iff bit 29 of its characteristics is set, whatever the others |
| `Pe.TextRva` | src/gdb/pe.rs:60-80 | the first occupied `.text` section, else the first occupied executable one of a complete table, else nothing |
| `Mapping.StopTid` | src/gdb/mapping.rs:18-35 | a stop names the current thread if deliverable, else the first active one, else 1, and so always a valid one |

## Left out

- Update in place and aliasing of the runner, the target and the session: they are one state machine on values, because the property is about interleavings, which a sequential class cannot show.
- ServeSessions: each client is given as the whole legal schedule of its session; accept polling, sockets, sleeps and the deadline are inputs, and the bounded wait is a nondeterministic give-up.
- A failed `goto` that moves the backend all the same: the runner's restart leaves the backend alone then, see Assumptions.
- Which positions a trace holds, and which one the engine settles on when asked for another: `Cursor.Clamps` leaves both open.
- CheckpointLasts: holds up to the point where the 64-bit id counter comes around; IdsAreFresh and CheckpointRestarts likewise.
- ReadRegister: register ids that a packet cannot produce are excluded; most of the translation of wire numbers to ids is in a foreign crate, and `ByNumber` only states its order.
- Weak memory: only interleavings are modelled.
- gdbstub's packet parser, framing, `g` packet serialisation and scheduler-lock actions.
- `TtdProcess` with its own range step, breakpoints, memory reads, module lists and thread tables.
- The interrupt handle's effect inside the backend: firing it is a step without effect, and a replay may return anything at any time.
- SDK cursor and engine wrappers, `ffi.rs` and the raw hand-off in `interrupt.rs`.
- The thread-local panic slot of `src/ttd/callback.rs`: a panicking callback appears only as a panicking job; the slot alone adds easy members.
- Monitor commands, library lists, target description files and auxv: text generation with easy properties.
- Reading the PE headers before the section table: file access and bounds checks.
- `qGetTLSAddr`, `QPassSignals` and the other one-line packet answers.
