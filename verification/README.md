# RedClaw desktop: verified models

A Dafny model of the self-contained state machines, codecs and bounded buffers of the RedClaw
desktop Controller, Host and rendezvous service, with proofs of what they keep over whole runs.
`dafny verify dfyconfig.toml` checks everything.

Each component has a model of pure functions (its state and what each operation does to it), proofs
about the model, and, where the program changes an object step by step, a class whose methods are
proved to do exactly what the model's functions say. The theorems about runs of the model's steps are
then theorems about the class.

- **Update-restart policy lease** (`UpdateRestart*.dfy`): a write-ahead journal over five policy keys.
  A step is one journal save or one key write, and a process may die after any of them.
- **Remote input** (`RemoteInput*.dfy`): what the user does by hand; the Controller's capture with its queue, batches, snapshots,
  suspensions, capture-region handshake and acknowledgements; the Host's inbox, its mapping onto the
  desktop and its input session; and an abstract Host as a fold of events.
- **Diagnostic writer** (`DiagnosticWriter*.dfy`): producers and one worker under a mutex, with a FIFO
  log queue, one coalescing status slot, barriers and a draining shutdown.
- **Runtime log** (`RuntimeLog*.dfy`): a buffer bounded by lines and by bytes, and a view that shows it
  batch by batch in a document of blocks.
- **Duration histogram** (`DurationHistogram.dfy`): quarter-octave buckets and percentiles.
- **Signalling** (`TransportDocument.dfy`, `TransportParsing.dfy`, `SignalStore.dfy`): the escaped row format and the store of
  published signals.
- **Runtime control queue** (`RuntimeControlQueue.dfy`): newline framing with byte accounting.
- **Workspace control server** (`WorkspaceControl.dfy`): the event log with cursors and requests that
  run at most once.
- **Thumbnail worker** (`ThumbnailWorker*.dfy`): one submitter, one worker, generations.
- **Connection flow** (`ConnectionFlow*.dfy`): the connection progress a window shows.

## What holds only under a condition

Where the code does not do what its design or documentation suggests on every input, the model keeps
the code and the condition is proved.

- A lease returns the original policy exactly if and only if no original was a 64-bit number: such a
  number comes back as a 32-bit one (`LeaseIsExactUnlessWide`).
- A refresh is refused as an outside edit if and only if some key differs from memory
  (`ApplyRefusedIff`), and it need not be an edit that made it differ. From a policy that agrees with
  memory, an apply leaves one that does not if and only if it was about to change a present key and
  either its journal save reported an error or that key's write was lost (`ApplyLeavesConflictIff`);
  and a refresh refused because of a real edit leaves one, once the edit is undone, if and only if a
  present key before the edited one was about to change (`UndoneEditStillRefusedIff`). From then on
  every refresh is refused (`RefusalPersists`), from any machine that grants a lease
  (`RefusedWithoutAnEdit`); release still restores (`UnsavedRefreshBlocksLaterOnes`).
- The control link takes messages that the runtime's protocol check then refuses. The batch of a
  freshly pressed key reaches the Host if and only if its scan code is 1 to 255 and its virtual key
  fits a byte; otherwise the whole batch is lost after the capture has counted it as sent
  (`FreshKeyArrives`); a wheel turn beyond 12000 takes the events it is sent with down with it
  (`WheelDecidesPress`), and a batch in general arrives if and only if every event in it is valid or it
  changes nothing (`BatchArrivesIff`). Held-state agreement is therefore proved for input the protocol accepts. A
  snapshot's own encoding keeps a key if and only if its scan code is 1 to 0x7FFF (`SnapshotIsExact`).
- The Host's session queues 256 events counted after mapping, where a button or a wheel turn takes two,
  and closes on more. Valid input therefore reaches the Host as sent if and only if what the inbox
  kept of it fits that queue from snapshot to snapshot (`InboxAndSessionRefineHost`); three full
  batches of button presses do not (`PressesCloseTheSession`). Coalescing makes a difference to that if
  and only if the queue overflows without it and not with it (`CoalescingMattersWhen`,
  `CoalescingSavesTheSession`).
- Formatted rows parse back if and only if none is empty or a single empty field (`RoundTrip`), and
  what is fetched from the signal store has the candidates published if and only if no media id among
  them has a tab (`PublishThenFetch`).
- Text splits into log lines that join back to it if and only if every line is short enough, does not
  begin with half a surrogate pair and does not end with a carriage return (`LinesJoinBack`). Text with
  carriage returns before its newlines is stored as the same lines as without them if and only if no
  line ended in one already, as long as each line has room for one more (`LineEndingsDoNotMatter`).
- A flush leaves lines on show that the buffer has dropped if and only if the buffer is full by line
  count, the view was showing both dropped lines and lines still held, and the flush has not caught up
  (`FlushShowsExpiredIff`); four steps from a new view reach it (`DroppedLineStaysShown`). Once caught
  up the view equals the buffer's text.
- A connection that fails, waits for a retry and finds its transport up again runs on with the failure
  still shown if and only if it had reached the last stage (`FailureStaysShown`).

## Assumptions

- One process holds the lease's lock at a time, and a journal save or a key write is atomic.
- Stored log lines hold no document break: no newline, carriage return or Unicode line or paragraph
  separator. `QPlainTextEdit` is a non-empty sequence of blocks with a maximum count.
- The Host holds nothing when control starts, and has the desktop geometry that the capture's messages
  carry; the inbox and session models keep the other case.
- Whether positions map onto the desktop depends on its geometry and capture region, which stay as they
  are while one taken batch of messages is consumed. A batch that does not map is dropped.
- Counters and sequence numbers that are 64 bits wide in the program are unbounded here, except in the
  rank of a percentile, where the wrap is modelled.
- What the program asks of code outside these files is a parameter: whether the control link takes a
  message, whether a write reaches the registry, what a sink, an encoder or an operation returns.

## Model

| member | source | states |
|---|---|---|
| UpdateRestartProofs.RunIsSafe | src/ui/host_update_restart_guard.cpp:109-268 | over every run of acquire, refresh, release and recover, with a crash after any write and any fault: with no journal the five keys are the pre-lease ones; with one it records the pre-lease policy and every key is at its original or one of the two recorded writes |
| UpdateRestartProofs.NextIsSafe | src/ui/host_update_restart_guard.cpp:189-205 | one operation, returning or cut off after any number of its writes, keeps that invariant |
| UpdateRestartProofs.RecoveryBringsBackTheOrigin | src/ui/host_update_restart_guard.cpp:251-258 | after any run a recovery that reports success has removed the journal and brought every key back, absent ones included |
| UpdateRestartProofs.ReleaseBringsBackTheOrigin | src/ui/host_update_restart_guard.cpp:261-268 | after any run a release of a held lease that reports success has done the same |
| UpdateRestartProofs.AcquireStartsFromTheOrigin | src/ui/host_update_restart_guard.cpp:221-249 | after any run, crashes included, an acquire past its own restore starts from the origin, and one that then fails and can undo leaves the origin |
| UpdateRestartProofs.RecoveryIsAlwaysPossible | src/ui/host_update_restart_guard.cpp:251-268 | after any run, without faults, recovery and release both succeed |
| UpdateRestartProofs.LeaseIsExactUnlessWide | src/ui/host_update_restart_guard.cpp:144-147 | acquire then release returns the policy exactly if and only if it held no 64-bit number |
| UpdateRestartProofs.RestoreChangesOnlyOurs | src/ui/host_update_restart_guard.cpp:109-154 | for any policy and journal a restore returns exactly the keys that hold a recorded write and leaves the rest; an invalid journal changes nothing |
| UpdateRestartProofs.RestoreReturnsOnlyOurWrites | src/ui/host_update_restart_guard.cpp:130-148 | over the journal's own fields: a key gets its recorded presence and original exactly when it holds a number recorded as present and applied, or present and previous; anything else found in it stays |
| UpdateRestartProofs.WrongJournalChangesNothing | src/ui/host_update_restart_guard.cpp:113-129 | a journal with one thing wrong in it, wherever it is, changes nothing at all |
| UpdateRestartProofs.RestoreResumes | src/ui/host_update_restart_guard.cpp:130-153 | a restore cut off anywhere, whatever went wrong, and run again ends where one uninterrupted restore ends |
| UpdateRestartProofs.ApplyRespectsOutsideEdits | src/ui/host_update_restart_guard.cpp:172-187 | an apply that meets a key differing from memory writes neither policy nor journal and says so |
| UpdateRestartProofs.ApplyDoneMeansInForce | src/ui/host_update_restart_guard.cpp:156-205 | an apply that reports success leaves the five lease values in place, 32 bits wide when it wrote |
| UpdateRestartProofs.LeaseCoversItsHours | src/ui/host_update_restart_guard.cpp:156-170 | success has switched active hours on for exactly as many hours as asked, the current one first, across midnight or not, and the two overriding policies off |
| UpdateRestartProofs.RangeRefusedIff | src/ui/host_update_restart_guard.cpp:160-168 | an apply fails for its range if and only if the range policies ask for nothing it can use |
| UpdateRestartProofs.ApplyRefusesFirst | src/ui/host_update_restart_guard.cpp:156-158 | an apply is refused for its hour if and only if that is no hour of the day, and otherwise for want of a lease if and only if there is none, changing nothing |
| UpdateRestartProofs.ApplyReports | src/ui/host_update_restart_guard.cpp:188-204 | an apply that writes reports the first thing that goes wrong, and its first write is the journal |
| UpdateRestartProofs.ApplyRefusedIff | src/ui/host_update_restart_guard.cpp:171-178 | an apply of an active lease is refused as an outside edit, with nothing written, if and only if some key differs from memory |
| UpdateRestartProofs.ApplyLeavesConflictIff | src/ui/host_update_restart_guard.cpp:179-198 | from agreement, an apply leaves a key that differs from memory if and only if it was changing a present key and the journal save reported an error or that key's write was lost |
| UpdateRestartProofs.UndoneEditStillRefusedIff | src/ui/host_update_restart_guard.cpp:171-187 | after a refresh refused for an edit that is then undone, later ones stay refused if and only if a present key before the first edited one was about to change |
| UpdateRestartProofs.RefusalPersists | src/ui/host_update_restart_guard.cpp:171-178 | once a key differs from memory, no sequence of refreshes writes anything or ends the difference |
| UpdateRestartProofs.UnsavedRefreshBlocksLaterOnes | src/ui/host_update_restart_guard.cpp:172-191 | after a refresh whose journal save reported an error, the journal written or not, and whatever refreshes follow, every later one is refused and touches nothing, and release still restores |
| UpdateRestartProofs.AcquireSucceedsIff | src/ui/host_update_restart_guard.cpp:227-241 | without faults an untouched machine grants a lease if and only if every key is absent or a number that fits 32 bits |
| UpdateRestartProofs.AcquireReports | src/ui/host_update_restart_guard.cpp:221-249 | an acquire reports why it failed, and then what went wrong in taking it back; it refuses a policy exactly if some key is neither absent nor a number that fits 32 bits; a failure leaves no lease |
| UpdateRestartProofs.OthersAreRespected | src/ui/host_update_restart_guard.cpp:221-268 | nothing is done while another process has the lock, at no hour of the day, or without a lease to give up |
| UpdateRestartProofs.RestoreReports | src/ui/host_update_restart_guard.cpp:109-154 | a restore reports success if and only if the journal was valid and nothing went wrong, names what did, and leaves the journal unless its removal reached the disk |
| UpdateRestartProofs.RefusedWithoutAnEdit | src/ui/host_update_restart_guard.cpp:189-198 | reached from any machine that grants a lease: after acquiring and one refresh at another hour with a failing save or a lost write of the hour, every refresh is refused for good |
| UpdateRestartLease.UpdateRestartPolicyLease.RestoreJournaled | src/ui/host_update_restart_guard.cpp:109-154 | performs exactly the model's restore writes, one by one, in order |
| UpdateRestartLease.UpdateRestartPolicyLease.StageEntries | src/ui/host_update_restart_guard.cpp:171-187 | the loop that checks and moves the entries stops at the first conflict and keeps what it moved |
| UpdateRestartLease.UpdateRestartPolicyLease.ApplyHour | src/ui/host_update_restart_guard.cpp:156-205 | performs the model's apply: journal first, then the keys, then read-back |
| UpdateRestartLease.UpdateRestartPolicyLease.AcquireLease | src/ui/host_update_restart_guard.cpp:221-249 | restores, scans, applies, and gives up the lease if applying fails, as the model does |
| UpdateRestartLease.UpdateRestartPolicyLease.ReleaseLease | src/ui/host_update_restart_guard.cpp:261-268 | restores and stops being active, as the model does |
| UpdateRestartLease.UpdateRestartPolicyLease.RecoverPolicy | src/ui/host_update_restart_guard.cpp:251-258 | restores under the lock, as the model does |
| RemoteInputRuns.HeldStateAgrees | src/ui/remote_input_capture.cpp:238-289 | over every run of proper input, while control is active, folding the queue into what the Host holds gives exactly the pressed keys and buttons; while suspended nothing is queued and the Host holds nothing |
| RemoteInputIntent.WhatIsDoneIsSent | src/ui/remote_input_capture.cpp:570-673 | over every run what is handed over and queued is what was done by hand, told from the actions alone: each move, button, key and wheel turn with its place, codes, flags and amount, in order, without some moves each directly followed by another; the capture counts as pressed what the hand holds |
| RemoteInputIntent.HostFollowsTheHand | src/ui/remote_input_capture.cpp:750-847 | over every run of proper input the Host, once it has everything queued, holds the keys and buttons the hand holds and points where the hand last did something |
| RemoteInputIntent.MessagesCarryGeometry | src/ui/remote_input_capture.cpp:870-882 | every message sent carries the geometry revision the capture has at the time |
| RemoteInputRuns.SentInOrder | src/ui/remote_input_capture.cpp:750-828 | what is handed over and queued is what was put in, in order, without some moves each directly followed by another move; the queue holds at most 256; any Host ends the same |
| RemoteInputRuns.SnapshotChangesNothing | src/ui/remote_input_capture.cpp:816-847 | a snapshot with nothing let go presses and releases nothing, taken or lost |
| RemoteInputRuns.AcknowledgedOnce | src/ui/remote_input_capture.cpp:786-904 | sequence numbers on batches and snapshots strictly increase over the run; each acknowledgement reported is of a sent message of its kind, in order, once |
| RemoteInputControl.QueueHolds256 | src/ui/remote_input_capture.cpp:750-768 | a key event or a press finds room behind what is queued if and only if fewer than 256 events are; otherwise control ends |
| RemoteInputControl.FlushSends48 | src/ui/remote_input_capture.cpp:786-814 | a flush sends the oldest 48 queued events, or all there are, and keeps the rest; it ends control if and only if 256 messages wait for acknowledgement or the link does not take the batch |
| RemoteInputControl.SentIsRemembered | src/ui/remote_input_capture.cpp:870-895 | in every step exactly what is sent is remembered on, with its number and kind, unless control ends |
| RemoteInputRuns.AcknowledgesEverythingBelow | src/ui/input_ack_timing.h:27-36 | after a cumulative acknowledgement nothing at or below it is pending, nothing else was reported, and a repeated or older one reports nothing |
| RemoteInputRuns.ReleaseIsQueued | src/ui/remote_input_capture.cpp:614-648 | the release of a held button is queued wherever the mouse is, or control ends |
| RemoteInputRuns.NoInputDuringRegionChange | src/ui/remote_input_capture.cpp:134-168 | input is forwarded only when no capture-region change is pending, and a completed handshake is never left waiting |
| RemoteInputRuns.FreshKeyArrives | src/protocol/src/stream_control_protocol.cpp:330-368 | a fresh key is held by the Host after its batch if and only if the protocol accepts its codes |
| RemoteInputRuns.BatchArrivesIff | src/protocol/src/stream_control_protocol.cpp:330-368 | a batch the link took leaves the Host as folding it would if and only if every event is valid or it changes nothing; the capture counts it as sent either way |
| RemoteInputRuns.HostReceives | src/protocol/src/stream_control_protocol.cpp:330-383 | which batches are felt, which snapshots release what they do not list, and what is lost, told over the messages alone |
| RemoteInputRuns.WheelDecidesPress | src/protocol/src/stream_control_protocol.cpp:355-360 | a press flushed together with a wheel turn is held by the Host if and only if the turn is within 12000 |
| RemoteInputProofs.OnlyTheHandshakeResumes | src/ui/remote_input_capture.cpp:141-168 | while a change is pending only its rejection, or its confirmation together with a frame at least as new, lets input through again |
| RemoteInputControl.HandshakeResumesIff | src/ui/remote_input_capture.cpp:134-168 | with nothing else suspending input, a step resumes it if and only if it rejects the pending change or completes the handshake |
| RemoteInputControl.ChangeIsPending | src/ui/remote_input_capture.cpp:134-168 | a change asked for is the pending one, with input suspended, unless control ends |
| RemoteInputControl.StartsWhenReady | src/ui/remote_input_capture.cpp:185-236 | control starts if and only if everything it needs is there, with nothing held, and suspended for exactly the reasons that last |
| RemoteInputControl.PauseTells | src/ui/remote_input_capture.cpp:238-263 | pausing ends control with everything forgotten and tells the Host exactly if asked to and if there was control to end |
| RemoteInputControl.SuspensionIsExact | src/ui/remote_input_capture.cpp:265-289 | over a link that takes everything a suspension sets or clears exactly its own reason, and the first one sends a snapshot of nothing held |
| RemoteInputControl.SuspensionsReleaseOnce | src/ui/remote_input_capture.cpp:265-289 | once a reason has suspended control, other reasons that come and go while it lasts send nothing more |
| RemoteInputProofs.SyncAgrees | src/ui/remote_input_capture.cpp:816-847 | a snapshot that is not withheld keeps held-state agreement, and restores it after everything was let go |
| RemoteInputProofs.SuspendedRelease | src/ui/remote_input_capture.cpp:265-289 | the first reason to suspend leaves the Host holding nothing and nothing queued or pressed, or ends control |
| RemoteInputProofs.DrainKeepsCore | src/ui/remote_input_capture.cpp:826-831 | the drain before a snapshot ends with an empty queue or with control ended, keeping order and numbering |
| RemoteInputEventProofs.ThinningKeepsMeaning | src/ui/remote_input_capture.cpp:770-784 | dropping superseded moves keeps every other event and leaves any Host as all events would, pointer included |
| RemoteInputEventProofs.SnapshotIsExact | src/ui/remote_input_capture.cpp:837-841 | a snapshot keeps exactly the pressed keys if and only if each scan code fits fifteen bits and is not zero |
| RemoteInputEventProofs.SnapshotLands | src/input/src/input_module.cpp:669-749 | a Host that gets a snapshot of part of what it holds then holds exactly that part, and is unchanged if the snapshot is lost |
| RemoteInputCapture.ControllerRemoteInputCapture.FlushBatch | src/ui/remote_input_capture.cpp:786-814 | sends the model's next batch of at most 48 events, gives the number back when there is none, ends control when it is not taken |
| RemoteInputCapture.ControllerRemoteInputCapture.SendStateSync | src/ui/remote_input_capture.cpp:816-847 | drains by a loop that ends, then sends the model's snapshot |
| RemoteInputCapture.ControllerRemoteInputCapture.SetLocalSuspension | src/ui/remote_input_capture.cpp:265-289 | sets one reason and releases on the first, as the model does |
| RemoteInputCapture.ControllerRemoteInputCapture.Activate | src/ui/remote_input_capture.cpp:185-236 | starts control keeping only the retained suspension reasons |
| RemoteInputCapture.ControllerRemoteInputCapture.Pause | src/ui/remote_input_capture.cpp:238-263 | ends control, telling the peer if asked, and forgets everything pressed, queued and pending |
| RemoteInputCapture.ControllerRemoteInputCapture.EnqueueCritical | src/ui/remote_input_capture.cpp:750-768 | queues an event after the waiting move, or ends control when the queue is full |
| RemoteInputCapture.ControllerRemoteInputCapture.EnqueueKeyboardEvent | src/ui/remote_input_capture.cpp:1054-1072 | records and queues one key change with its normalized identity |
| RemoteInputCapture.ControllerRemoteInputCapture.MouseButtonChanged | src/ui/remote_input_capture.cpp:614-648 | records and queues one button change, at the last pointer position for a held button released outside |
| RemoteInputCapture.InputAckTracker.Acknowledge | src/ui/input_ack_timing.h:27-36 | reports oldest first exactly the remembered messages covered |
| RemoteInputInbox.CoalescingKeepsFold | src/runtime/remote_input_inbox.h:20-39 | when nothing was refused, any Host that folds what the inbox kept of valid messages ends as one that folds everything offered, whatever the capacities |
| RemoteInputInbox.CoalescingKeepsMeaning | src/runtime/remote_input_inbox.h:20-39 | for any session and commands whose mapped events never overflow its queue uncoalesced, consuming what the inbox kept leaves keys, buttons, pointer, newest sequence and state as consuming everything offered |
| RemoteInputInbox.CoalescingMattersWhen | src/input/src/input_module.cpp:644-652 | coalescing decides whether the session stays open if and only if its queue overflows without it and not with it, and never to the worse |
| RemoteInputInbox.CoalescingSavesTheSession | src/main.cpp:3970-4055 | an input that reaches that difference: 292 mapped events uncoalesced, 212 coalesced |
| RemoteInputSession.MappingKeepsMeaning | src/main.cpp:3970-4055 | mapping a button or wheel event to a move and itself changes nothing for any Host |
| RemoteInputSession.MappingAddsOnlyMoves | src/main.cpp:3996-4055 | mapping adds moves and nothing else: every other event is injected once, as it is and in order |
| RemoteInputSession.SessionFollowsHost | src/input/src/input_module.cpp:618-667 | valid input in order leaves an open session holding and pointing as the plain fold of all of it if and only if its mapped events fit the queue from snapshot to snapshot; otherwise closed, holding nothing |
| RemoteInputSession.OpensOnlyOnRequest | src/main.cpp:7549-7566 | a session opens exactly on a start that is authorized, not blocked and has a usable desktop, and closes exactly on a stop, a release, an unusable start, an overflow or an empty batch, holding nothing |
| RemoteInputSession.RefusedInputChangesNothing | src/input/src/input_module.cpp:618-690 | old numbers, strange geometries and blocked or unauthorized sessions let no input through; which numbers are remembered is told |
| RemoteInputSession.UnmappableIsDropped | src/main.cpp:7579-7593 | a batch is dropped exactly if it has an event with a place and places cannot be mapped |
| RemoteInputInbox.InboxAndSessionRefineHost | src/main.cpp:7547-7608 | valid messages in sequence order, coalesced by the inbox and consumed by an open session, leave it open, holding and pointing as the plain fold of all of them, if and only if what the inbox kept fits the queue; otherwise closed, holding nothing |
| RemoteInputInbox.PressesCloseTheSession | src/main.cpp:7573-7593 | three batches of 48 button presses, 288 mapped events, close an open session: it holds nothing while the plain fold holds the button |
| RemoteInputInbox.TakenIsLighter | src/runtime/remote_input_inbox.h:20-31 | what the inbox kept of valid input in order is in order, ends as recently and takes no more of the session's queue at any point |
| RemoteInputInbox.OfferMeaning | src/runtime/remote_input_inbox.h:20-31 | an offer takes the place of the last message exactly if it makes that one needless, and is otherwise queued, or refused exactly if 64 wait |
| RemoteInputInbox.OffersAreCounted | src/runtime/remote_input_inbox.h:20-39 | every message offered is kept, replaced or refused, and counted so; the peak is the most that ever waited |
| RemoteInputInbox.StopsStay | src/runtime/remote_input_inbox.h:20-50 | an accepted stop stays and a refusal stays known until the inbox is taken or cleared, within its capacity |
| RemoteInputInbox.BoundaryOnlyReleases | src/runtime/input_control_boundary.h:11-23 | what a boundary leaves presses nothing, and a stop among it ends control with nothing held |
| RemoteInputInbox.DiscardKeepsStops | src/runtime/input_control_boundary.h:11-23 | discarding keeps exactly the stops, and the empty snapshots when asked |
| RemoteInputInbox.SupersededIsSuperfluous | src/runtime/remote_input_inbox.h:53-68 | a message makes one it supersedes superfluous for any session whose queue would have taken both |
| RemoteInputInbox.InputInbox.Offer | src/runtime/remote_input_inbox.h:20-31 | coalesces, refuses or queues as the model does, and says whether it accepted |
| RemoteInputInbox.InputInbox.DiscardObsolete | src/runtime/input_control_boundary.h:11-23 | the erasing loop leaves the model's discarded queue |
| RemoteInputInbox.InputInbox.ContainsStop | src/runtime/remote_input_inbox.h:44-50 | finds a stop if and only if there is one |
| DiagnosticWriterProofs.BarriersWaitForTheirPast | src/ui/gui_diagnostic_writer.cpp:53-60 | in every interleaving a barrier starts only after every log accepted before it, oldest first, and a status at least as new as the one before it, have been run |
| DiagnosticWriterProofs.WokenWorkerActs | src/ui/gui_diagnostic_writer.cpp:101-114 | a woken worker always takes something or exits, and exits exactly when stopping with nothing left |
| DiagnosticWriterContents.JobsGetWhatWasAccepted | src/ui/gui_diagnostic_writer.cpp:24-60 | in every interleaving the records run are the accepted ones from the first on, whole and in order, the one in flight and those queued the rest with their sizes; each status is written with the path and factory of its submission and the newest is pending; works run in order. Acceptance is told from the calls |
| DiagnosticWriterContents.CountersAreTrue | src/ui/gui_diagnostic_writer.cpp:24-145 | refused records and bytes, failures, the newest status written and the peak are what the run makes them |
| DiagnosticWriterContents.HistoryIsObserved | src/ui/gui_diagnostic_writer.cpp:93-145 | the history that the other theorems read is exactly what the worker and the callers were seen to do |
| DiagnosticWriterProofs.NothingIsLost | src/ui/gui_diagnostic_writer.cpp:24-51 | logs and statuses are conserved by number, logs run in order of acceptance, bytes queued and in flight equal the count and stay within capacity |
| DiagnosticWriterProofs.NeitherKindStarves | src/ui/gui_diagnostic_writer.cpp:103-113 | with both kinds waiting neither is passed over twice running, barriers aside |
| DiagnosticWriterProofs.SuccessIsVouchedFor | src/ui/gui_diagnostic_writer.cpp:103-144 | a barrier reports success if and only if its own work did well and nothing had been dropped, lost or failed when it started |
| DiagnosticWriterProofs.ExitIsDrained | src/ui/gui_diagnostic_writer.cpp:18-22 | the worker exits only with every accepted log and the newest status run and no barrier left |
| DiagnosticWriterProofs.ShutdownIsBounded | src/ui/gui_diagnostic_writer.cpp:93-145 | after a stop request each worker step brings the exit exactly one nearer, whatever else happens |
| DiagnosticWriterProofs.WorkerActsAfterStop | src/ui/gui_diagnostic_writer.cpp:93-145 | after a stop request a worker that has not exited always has a step to take |
| DiagnosticWriterProofs.ReachableInv | src/ui/gui_diagnostic_writer.cpp:24-145 | every reachable state satisfies conservation, barrier order, alternation, honesty and drained exit together |
| DiagnosticWriter.GuiDiagnosticWriter.Post | src/ui/gui_diagnostic_writer.cpp:24-39 | accepts a record exactly when not stopping and it fits, as the model's step, and keeps every invariant |
| DiagnosticWriter.GuiDiagnosticWriter.Submit | src/ui/gui_diagnostic_writer.cpp:41-51 | replaces the pending status and numbers it, as the model's step, and keeps every invariant |
| DiagnosticWriter.GuiDiagnosticWriter.Take | src/ui/gui_diagnostic_writer.cpp:100-114 | the worker's pick, as the model's step, and keeps every invariant |
| DiagnosticWriter.GuiDiagnosticWriter.Finish | src/ui/gui_diagnostic_writer.cpp:128-144 | the worker's accounting, as the model's step, and keeps every invariant |
| DiagnosticWriter.GuiDiagnosticWriter.Join | src/ui/gui_diagnostic_writer.cpp:18-22 | after a stop the worker's loop ends with everything drained |
| RuntimeLogBufferProofs.BufferHoldsTheLongestSuffix | src/ui/runtime_log_view.cpp:13-43 | after a clear and any appends the buffer holds the longest suffix of all split lines within 4096 lines and 4 MiB, counts its bytes exactly and numbers its lines on |
| RuntimeLogBufferProofs.EvictMeaning | src/ui/runtime_log_view.cpp:24-29 | eviction drops from the front exactly until one more line fits |
| RuntimeLogBufferProofs.AppendKeepsLongestFit | src/ui/runtime_log_view.cpp:13-36 | one append keeps the buffer the longest fitting suffix |
| RuntimeLogBufferProofs.LinesJoinBack | src/ui/runtime_log_view.cpp:14-34 | a text splits into lines that join back to it if and only if each line is short enough, begins with no low surrogate and ends with no carriage return |
| RuntimeLogLineProofs.LinesAreStored | src/ui/runtime_log_view.cpp:13-23 | a text is stored as its lines in order, each cut to its longest end within the limit, less half a surrogate pair in front and one carriage return at the end |
| RuntimeLogLineProofs.ShortLineStored | src/ui/runtime_log_view.cpp:19-23 | a line that fits and starts with no half of a pair is stored whole, without one carriage return |
| RuntimeLogLineProofs.LineEndingsDoNotMatter | src/ui/runtime_log_view.cpp:13-23 | a text with either line ending is stored as the same lines if and only if none of them ended in a carriage return already, as long as each has room for one |
| RuntimeLogRuns.RunShows | src/ui/runtime_log_view.cpp:81-170 | after any mix of appends, evictions, clears and flushes the view shows a contiguous range of the lines appended plus a prefix of the next |
| RuntimeLogRuns.FlushesCatchUp | src/ui/runtime_log_view.cpp:103-170 | with no further appends repeated flushes end with the document equal to the buffer's text, and it stays so |
| RuntimeLogViewProofs.FlushKeepsInv | src/ui/runtime_log_view.cpp:103-170 | a flush keeps that range and, if anything was left to show, leaves less |
| RuntimeLogRuns.CaughtUpShowsTheText | src/ui/runtime_log_view.cpp:45-55 | caught up, the document reads as the buffer's text |
| RuntimeLogViewProofs.FlushShowsExpiredIff | src/ui/runtime_log_view.cpp:110-160 | a flush leaves lines shown that the buffer has dropped if and only if the buffer is full by line count, the view showed dropped lines and some still held, and the flush has not caught up |
| RuntimeLogRuns.DroppedLineStaysShown | src/ui/runtime_log_view.cpp:110-160 | a run from a new view that reaches it: 4096 empty lines, a flush, one more line, a flush |
| RuntimeLogViewProofs.DropExpiredShows | src/ui/runtime_log_view.cpp:113-123 | dropping expired blocks leaves a document that shows the range from its new start, which is the buffer's unless the buffer is full by line count |
| RuntimeLogViewProofs.InsertBatchTypes | src/ui/runtime_log_view.cpp:146-155 | however a batch is inserted the document becomes what typing it gives |
| RuntimeLogViewProofs.BatchIsBounded | src/ui/runtime_log_view.cpp:127-145 | a batch takes at most 64 lines and 32 KiB, and stops early only when it has taken that many or has no room for another unit or pair |
| RuntimeLogViewProofs.BatchesKeepPairsTogether | src/ui/runtime_log_view.cpp:133-135 | a batch boundary inside a well-formed line never splits a surrogate pair |
| RuntimeLogView.RuntimeLogBuffer.AppendText | src/ui/runtime_log_view.cpp:13-36 | the splitting loop appends what the model's append does |
| RuntimeLogView.RuntimeLogBuffer.Text | src/ui/runtime_log_view.cpp:45-55 | the joining loop returns the lines joined by newlines |
| RuntimeLogView.LogView.FlushPending | src/ui/runtime_log_view.cpp:103-170 | the collecting loop and the insertion flush as the model does |
| DurationHistogram.GuiDurationHistogram.Percentile | src/ui/gui_latency_probe.h:67-82 | for a percent of 1 to 100 whose rank does not wrap there is a sample with less than that share of the samples below it and at least that share up to it, and the result is no less and above it by at most a quarter or one; it never exceeds the largest sample |
| DurationHistogram.GuiDurationHistogram.Add | src/ui/gui_latency_probe.h:64-66 | each bin keeps counting exactly the samples of its bucket, with count, wrapping total and maximum |
| DurationHistogram.BucketIsMonotone | src/ui/gui_latency_probe.h:56-63 | a longer duration never has a lower bucket, and buckets stay below 256 |
| DurationHistogram.UpperIsClose | src/ui/gui_latency_probe.h:74-79 | the value reported for a bucket covers its durations by at most a quarter of the duration or one |
| DurationHistogram.RankBucket | src/ui/gui_latency_probe.h:70-73 | the first bucket by which a rank of samples has been seen is the bucket of the exact value |
| DurationHistogram.NearestRankIsSorted | src/ui/gui_latency_probe.h:67-69 | the nearest-rank value is what the sorted samples have at that rank |
| TransportDocument.UnescapeEscape | src/rendezvous_service_main.cpp:200-249 | unescaping undoes escaping for every string |
| TransportDocument.ParseFormat | src/rendezvous_service_main.cpp:251-325 | a document of formatted rows parses to those rows but the blank ones |
| TransportDocument.RoundTrip | src/rendezvous_service_main.cpp:251-325 | a document round-trips if and only if no row is empty or a single empty field |
| TransportParsing.DocumentReads | src/rendezvous_service_main.cpp:251-313 | any document parses if and only if every line of it that counts reads as a row, and then to those rows; lines end in a newline, with or without a carriage return |
| TransportParsing.LineReads | src/rendezvous_service_main.cpp:267-308 | a line reads as a row if and only if each tab-separated piece is well escaped, and the fields are what the pieces stand for |
| TransportParsing.AcceptedIfWellEscaped | src/rendezvous_service_main.cpp:219-249 | a field is accepted if and only if every backslash, read from the left, is followed by one of four letters |
| TransportParsing.EscapeUnescape | src/rendezvous_service_main.cpp:200-249 | escaping gives an accepted field back if and only if it held no raw tab, newline or carriage return |
| TransportDocument.EscapeTransportField | src/rendezvous_service_main.cpp:200-217 | the loop computes the escaped field |
| TransportDocument.UnescapeTransportField | src/rendezvous_service_main.cpp:219-249 | the loop with its escape flag accepts exactly the escaped fields and returns their text |
| TransportDocument.ParseTransportDocument | src/rendezvous_service_main.cpp:251-313 | the loop over lines returns the document's rows or the first error |
| TransportDocument.FormatSignalEventLine | src/rendezvous_service_main.cpp:315-325 | the loop formats one row |
| SignalStore.PublishThenFetch | src/rendezvous_service_main.cpp:499-588 | what is published on a live session's lane is fetched from it, whatever other requests come between: same description, one revision on, as many candidates in order, and the same ones if and only if no media id has a tab |
| SignalStore.PublishIsAnswered | src/rendezvous_service_main.cpp:499-548 | a publication succeeds if and only if it parses, begins with a signal row and its session is live; the answer tells the new revision, one on from the stored one |
| SignalStore.FetchIsAnswered | src/rendezvous_service_main.cpp:550-563 | a signal is found if and only if its session is live and something was published on the lane |
| SignalStore.ExpiredAreDropped | src/rendezvous_service_main.cpp:595-609 | exactly the sessions past their time are dropped, each with both its lanes |
| SignalStore.DigitsAreDecimal | src/rendezvous_service_main.cpp:545-546 | numbers are written in decimal digits that read back as them |
| SignalStore.CandidatesComeBack | src/rendezvous_service_main.cpp:526-531 | the candidates of a document come back exactly if and only if no media id among them has a tab |
| SignalStore.KeysAreDistinct | src/rendezvous_service_main.cpp:591-593 | different sessions or lanes never share a signal |
| SignalStore.RunLeavesSignal | src/rendezvous_service_main.cpp:499-609 | requests elsewhere leave a live lane's signal alone, including what expires meanwhile |
| SignalStore.CandidateSplits | src/rendezvous_service_main.cpp:574-584 | a stored candidate splits back into its id and line if and only if the id has no tab |
| SignalStore.RendezvousServerState.PublishSignal | src/rendezvous_service_main.cpp:499-548 | stores and answers as the model does, errors included |
| SignalStore.RendezvousServerState.FetchSignal | src/rendezvous_service_main.cpp:550-588 | answers as the model does |
| SignalStore.RendezvousServerState.CleanupExpired | src/rendezvous_service_main.cpp:595-609 | the erasing loop drops exactly the expired sessions and both their lanes |
| RuntimeControlQueue.FramingIsIndependentOfChunks | src/ui/runtime_control_queue.h:13-31 | however a stream is cut and whenever frames are taken, the frames taken and queued are those of the whole stream, the rest is its tail, and the byte count is exact and within capacity |
| RuntimeControlQueue.ChunksDoNotMatter | src/ui/runtime_control_queue.h:13-31 | two ways of cutting the same stream agree on every frame and on the rest |
| RuntimeControlQueue.AppendMeaning | src/ui/runtime_control_queue.h:13-26 | an append succeeds if and only if everything it completes and leaves fits, and then queues exactly the frames completed |
| RuntimeControlQueue.FramesConcat | src/ui/runtime_control_queue.h:16-23 | the frames of a whole are those of its beginning and then those its unfinished tail starts |
| RuntimeControlQueue.FramesAreFrames | src/ui/runtime_control_queue.h:17-21 | a stream is its frames, each with its only newline at the end, and a tail without one |
| RuntimeControlQueue.FailureStays | src/ui/runtime_control_queue.h:32-32 | nothing is accepted, queued or taken after a failure |
| RuntimeControlQueue.TakenIsTrimmed | src/ui/runtime_control_queue.h:27-31 | a take gives the oldest frame less exactly the white space around it |
| RuntimeControlQueue.PeaksAreTrue | src/ui/runtime_control_queue.h:13-26 | as long as nothing failed the peaks are the most bytes and frames ever queued |
| RuntimeControlQueue.ControlQueue.Accept | src/ui/runtime_control_queue.h:13-26 | the framing loop appends as the model does |
| RuntimeControlQueue.ControlQueue.TakeFrame | src/ui/runtime_control_queue.h:27-31 | takes the oldest frame, trimmed, and its bytes |
| WorkspaceControl.ReaderMissesOnlyGaps | src/ui/workspace_control_server.cpp:107-115 | over any interleaving a reader that follows the cursor receives observed events in order, each at most once, and what it did not receive was skipped by a page that said so |
| WorkspaceControl.PageIsStretch | src/ui/workspace_control_server.cpp:107-115 | a page is a stretch of what was observed, of 128 events or of all there are, from the cursor on; a gap is marked exactly when more than 2048 events came since, and then the page starts with the oldest of them |
| WorkspaceControl.MutationsRunOnce | src/ui/workspace_control_server.cpp:117-130 | every mutating request id runs at most once, within the history kept |
| WorkspaceControl.RepeatsDoNotRun | src/ui/workspace_control_server.cpp:119-129 | a request that ran, repeated at any later time, does not run again: same content gets the stored reply, other content a conflict |
| WorkspaceControl.ChangesAreRemembered | src/ui/workspace_control_server.cpp:117-130 | every operation but the eight that only read is remembered with its reply and does not run again; the reading ones leave nothing behind |
| WorkspaceControl.ResultsAreAnswered | src/ui/workspace_control_server.cpp:88-130 | a request gets its own result under its own id if and only if it runs; which ones run is told |
| WorkspaceControl.StrangersAreRefused | src/ui/workspace_control_server.cpp:88-107 | nothing runs in another version or for another instance, and every refusal says why |
| WorkspaceControl.ObserveKeepsListed | src/ui/workspace_control_server.cpp:131-136 | an observation lists its operation with its newest state and keeps the others as they were, without repetition; one is dropped only for a new operation when 128 are listed, and then the one listed longest |
| WorkspaceControl.WorkspaceControlServer.EventPage | src/ui/workspace_control_server.cpp:110-114 | the filtering loop returns the model's page |
| WorkspaceControl.WorkspaceControlServer.Dispatch | src/ui/workspace_control_server.cpp:88-130 | answers, runs and remembers as the model does |
| WorkspaceControl.WorkspaceControlServer.ObserveOperation | src/ui/workspace_control_server.cpp:131-139 | records an observation as the model does |
| ThumbnailWorkerProofs.ClaimsAreConserved | src/runtime/navigation_thumbnail_worker.cpp:41-98 | in every interleaving each frame claimed is being prepared, pending, at the worker, sent, failed, discarded or replaced, exactly once |
| ThumbnailWorkerProofs.PacketsReachTheirSender | src/runtime/navigation_thumbnail_worker.cpp:51-153 | packets go only to the sender installed when their frame was claimed, with strictly increasing revisions, and frames of one generation are claimed a second apart |
| ThumbnailWorkerProofs.UndisturbedFrameArrives | src/runtime/navigation_thumbnail_worker.cpp:51-147 | a frame claimed and not disturbed reaches its sender if and only if it can be prepared and encoded, and counts as sent or failed as it should |
| ThumbnailWorkerProofs.ClaimedWhenDue | src/runtime/navigation_thumbnail_worker.cpp:115-127 | a frame is claimed exactly when the worker runs with a sender, none is being prepared and none of this generation was claimed within a second |
| ThumbnailWorkerProofs.VoidedWorkStartsAfresh | src/runtime/navigation_thumbnail_worker.cpp:41-47 | a new sender or an invalidation takes the pending image away and lets the next frame be claimed at once |
| ThumbnailWorkerProofs.StopEnds | src/runtime/navigation_thumbnail_worker.cpp:155-164 | after a stop, whatever is called afterwards, installing a sender included: nothing is claimed or pending, the worker has exited exactly once it has taken its steps left, at most three, and only the packet being sent is handed over |
| ThumbnailWorker.NavigationThumbnailWorker.BeginSubmit | src/runtime/navigation_thumbnail_worker.cpp:120-127 | claims a frame if one is due, as the model does, and keeps the invariants |
| ThumbnailWorker.NavigationThumbnailWorker.EndSubmit | src/runtime/navigation_thumbnail_worker.cpp:134-147 | accounts for the prepared image, as the model does, and keeps the invariants |
| ThumbnailWorker.NavigationThumbnailWorker.BeginEncoding | src/runtime/navigation_thumbnail_worker.cpp:69-70 | the first check of a picked job, as a step of its own that others may follow |
| ThumbnailWorker.NavigationThumbnailWorker.BeginSending | src/runtime/navigation_thumbnail_worker.cpp:71-83 | the second check after encoding, as a step of its own |
| ThumbnailWorker.NavigationThumbnailWorker.HandOver | src/runtime/navigation_thumbnail_worker.cpp:84-90 | sends outside the mutex whatever has become stale meanwhile, and keeps the invariants |
| ThumbnailWorker.NavigationThumbnailWorker.Account | src/runtime/navigation_thumbnail_worker.cpp:91-97 | counts the finished job, stale ones as discarded, and keeps the invariants |
| ConnectionFlow.FlowIsSafe | src/ui/connection_flow_model.cpp:8-192 | in every reachable state a complete connection has its transport, and outside Idle the stages before the current one are complete and those after it pending |
| ConnectionFlow.HostCompletionNeedsNewFrames | src/ui/connection_flow_model.cpp:133-150 | in every reachable state frames complete a connection if and only if it is a Host with its transport, something was captured, and each counter is above its value when the transport was last not ready, or above zero if it has gone down since |
| ConnectionFlowProgress.StageIsFurthest | src/ui/connection_flow_model.cpp:77-91 | while a connection is under way the current stage is the furthest that any signalling event since has been for in its role, whatever their order |
| ConnectionFlowProgress.FirstFrameCompletes | src/ui/connection_flow_model.cpp:91-95 | a first frame completes a connection under way if and only if its transport is up |
| ConnectionFlowProgress.TransportDecides | src/ui/connection_flow_model.cpp:106-131 | a connection has its transport exactly while connection and channel are up, and goes to its last or first stage as they come and go |
| ConnectionFlowProgress.WindowOffersTruly | src/ui/connection_flow_model.cpp:8-165 | in every reachable state a retry is offered exactly after a failure, leaving exactly while there is something to leave, a reason only for a failure, and the view is the role's |
| ConnectionFlowProgress.AttemptsAreCounted | src/ui/connection_flow_model.cpp:26-75 | a failure shows its reason, a retry counts one more attempt and begins afresh, a start begins with the first |
| ConnectionFlow.FailureStaysShown | src/ui/connection_flow_model.cpp:57-75 | a running connection that fails, waits and finds its transport up again still shows the failure if and only if it had reached the last stage |
| ConnectionFlow.StoppingStays | src/ui/connection_flow_model.cpp:152-160 | stopping is left exactly by an exit, a reset or a new start |
| ConnectionFlow.ProgressStays | src/ui/connection_flow_model.cpp:106-183 | progress is given up only by a retry, a lost transport, a new start, an exit or a reset |
| ConnectionFlow.ConnectionFlowModel.ApplyEvent | src/ui/connection_flow_model.cpp:20-104 | applies an event as the model does, and keeps the stages in order and completion with its transport |
| ConnectionFlow.ConnectionFlowModel.TransportSeen | src/ui/connection_flow_model.cpp:106-131 | observes the transport as the model does, and keeps the stages in order and completion with its transport |
| ConnectionFlow.ConnectionFlowModel.HostFramesSeen | src/ui/connection_flow_model.cpp:133-150 | observes frame counters as the model does, and keeps the stages in order and completion with its transport |
| ConnectionFlow.ConnectionFlowModel.SetCurrentStage | src/ui/connection_flow_model.cpp:172-183 | the loop moves the stages on, never back |

## Left out

- RemoteInputRuns.HeldStateAgrees: stated for input the protocol accepts, because the control link takes other messages and the runtime then drops them; `FreshKeyArrives` gives the condition for one key exactly.
- RemoteInputInbox.CoalescingKeepsMeaning: stated for commands that do not overflow the session's queue uncoalesced, because otherwise the coalesced ones can do better; `CoalescingMattersWhen` gives the difference exactly and `CoalescingKeepsFold` needs no such condition.
- RemoteInputSession.SessionFollowsHost: stated where positions map onto the desktop, because a batch that does not map is dropped.
- DurationHistogram.GuiDurationHistogram.Percentile: promises only the upper bound when the product of count and percent wraps or the percent is not 1 to 100.
- UpdateRestartProofs.LeaseIsExactUnlessWide: stated for a lease acquired without an earlier journal on disk.
- The order and repetition of the codes in a snapshot: they are a set here.
- Where on the frame the mouse is: positions arrive already scaled to 16 bits.
- Why control was paused, the timing of acknowledgements, and QA clicks and keys, which bypass what counts as pressed.
- Callbacks that call back into the capture, and operations that dispatch another request while one is being answered.
- The Host session's lease time, the arithmetic of mapping positions, and injection failures: injecting succeeds here, at one moment.
- The 4 KiB limit on an encoded batch: 48 events of a few small numbers each stay well below it.
- Widgets, layout, scrolling, painting and the timers that start flushes: only their effect on the modelled state is kept.
- Registry types beyond a number's width, mutexes, tokens and the update-deadline policies.
- Sockets, HTTP, named pipes, processes, JSON, JPEG contents and log texts.
- The session registry, its registration errors and the decimal parser for numbers in requests: an accepted registration is a step with its expiry.
- Byte counts of pending thumbnails and the timings and readback counters the worker reports.
- Classifying log lines into connection events: long, but each branch stands alone.
