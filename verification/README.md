# MeshCenter, modelled and verified in Dafny

MeshCenter is a base-station server for a Meshtastic radio: one process whose request
threads, listener, workers and adapter subprocess share a radio, a message list and a
few small stores. This project models the parts of it that are protocols, state
machines or laws, and proves what they keep.

Verify everything with `dafny verify dfyconfig.toml`.

| file | what it models |
|---|---|
| `AdapterIpc.dfy` | the adapter subprocess supervisor: the tolerant reader loop, and every interleaving of caller, adapter, reader threads, crashes, kills and respawns |
| `AdapterTransport.dfy` | the connection record a transport keeps about that adapter |
| `Outgoing.dfy`, `SendProtocol.dfy` | the outgoing-message list and every interleaving of send, batch worker, ACKs, timeout, retry, delete, truncation and restart |
| `Recovery.dfy` | automatic listener restarts over whole traces of health ticks |
| `RadioSession.dfy` | the radio lock and the pause flag under any number of threads |
| `Dedup.dfy`, `Telemetry.dfy`, `LoginThrottle.dfy` | pruned or batched state against a plain reference |
| `JsonValue.dfy`, `Settings.dfy`, `SettingsRoutes.dfy` | deep merge, the settings normalizer, GET and POST, and what a restart reads back |
| `Instance.dfy` | the identity file and its installation id over runs of loads and saves |
| `I2cTable.dfy`, `JsonBlock.dfy` | two parsers as inverses of their printers |
| `Bme280.dfy` | sensor register assembly and compensation |
| `UsbCamera.dfy` | format negotiation, start, stop and the photo that borrows the stream |
| `PyText.dfy`, `Prelude.dfy` | `strip`, `str` and `int` on text; `Option` |

Conventions. An object that the program updates in place is a class; each method is
proved equal to a function of the old state, and the theorems are about those
functions, so they hold of the methods. Concurrent protocols are step machines; a step
that is not enabled changes nothing, so every sequence of steps is a run and a theorem
over all sequences is a theorem over all interleavings. Clocks, randomness, devices,
the network and the file system are parameters: an outcome is an argument of the
operation that meets it. Times are reals, Python integers are integers.

Where the code does not do what one would expect, the code is modelled as it is and the
theorem says exactly when the expectation holds:

- A message sent to the radio's own node id is filed under the channel, so its result
  never finds it: it stays pending until a restart (`StuckIffSelfAddressed`).
- A delivered or unconfirmed message keeps its status for ever exactly when its copy in
  the history file has it too (`FinalForeverIff`); a delivery whose history write failed
  is undone by a restart (`UnsavedDeliveryIsForgotten`).
- The adapter's reader thread is started outside every `try`: when it cannot be created,
  the next call can get the previous call's answer, exactly when the adapter lives and its
  unread noise is within the limits (`DebtIsReturnedIff`, `ThreadExhaustionBreaksStepIff`).
- A release keeps the listener paused exactly when nobody was already past the point of
  asking when it paused (`ReleasePauseSafeIff`): no session past its availability check, no
  adapter call, which clears the pause without asking, and no listener restart. One of
  those can leave a released radio unpaused (`SessionCanLiftRelease`,
  `UngatedCallLiftsRelease`).
- An exception while a session or an adapter call prepares, or in the wait before a
  session's clear, leaves the listener paused with the lock free
  (`PrepareExceptionLeavesPause`, `CooldownExceptionLeavesPause`,
  `ClaimExceptionLeavesPause`).
- Disabling recovery empties the attempt budget (`DisablingClearsBudget`).
- Debounced telemetry agrees with immediate application on everything but the battery
  level (`BatteryLevelAgreesIff` gives the exact condition).
- The 12-bit humidity trims are never negative (`CalibrationTrims`).
- A restart resets the clock to 24 hours (`RestartForgetsClock`).
- Normalizing an identity again changes nothing exactly when its host name reads back as
  itself (`IdempotentIff`). A load that cannot read the file takes it for empty and, if it
  can write, replaces a valid installation id; over any run the id lasts exactly when no
  load or save does such a thing (`IdNeverRegeneratedIff`). A save before any load replaces
  it too (`SaveBeforeLoadReplacesId`); a recorded error cannot be cleared (`ErrorStays`).
- A photo can show a leftover frame of the interrupted stream exactly when a reader thread
  of an earlier stream is still decoding one when the photo's stream starts
  (`PhotoIsAtTargetIff`), and an explicit stop during a photo is undone when the stream is
  resumed (`StopDuringPhotoIsUndone`).

Remark: humidity lies in 0..100 for all inputs because the code clamps it
(`HumidityIsAPercentage`, hardware/bme280_service.py:187).

## Model

| member | source | states |
|---|---|---|
| AdapterIpc.ReadLoop | meshsrv/adapter_ipc_client.py:450-493 | the reader answers with the first JSON line iff the non-blank junk before it is within 5 lines and 4096 characters, with a protocol error iff junk first passes a limit, with "closed" iff output ends first; blank lines never count |
| AdapterIpc.ReadOutcomeUnique | meshsrv/adapter_ipc_client.py:450-493 | those cases exclude each other, so each is an "exactly when" |
| AdapterIpc.ReaderFollowsLoop | meshsrv/adapter_ipc_client.py:450-493 | the reader thread of the step machine, fed line by line, decides when and as the loop decides |
| AdapterIpc.KeepsInv | meshsrv/adapter_ipc_client.py:337-575 | every step of adapter, reader threads and caller keeps: with the lock free a live adapter owes nothing; during a call box, pipe and adapter together hold exactly this call's answer |
| AdapterIpc.RepliesInStep | meshsrv/adapter_ipc_client.py:391-575 | over every run, each payload a call returned answers that very call, and with the lock free the adapter has no unanswered request and no unread reply |
| AdapterIpc.DebtIsReturnedIff | meshsrv/adapter_ipc_client.py:422-548 | with the lock free and a request unanswered behind noise, over all later steps the next call can be given that answer iff the process is alive and its unread noise is within both limits |
| AdapterIpc.ThreadExhaustionBreaksStepIff | meshsrv/adapter_ipc_client.py:495-496 | from any quiet moment: after a call whose reader thread cannot be created, the next call can return its answer iff the process is new or its unread noise is within the limits |
| AdapterIpc.EndFollowsLoop | meshsrv/adapter_ipc_client.py:468-493 | where output ends, or reading fails, before a verdict, the reader thread says what the loop says |
| AdapterIpc.FinishTells | meshsrv/adapter_ipc_client.py:498-553 | which outcome each verdict of the reader becomes, and whether the adapter is killed: for every failure and for its own timeout, not for an ordinary reply |
| AdapterIpc.DeadlineTells | meshsrv/adapter_ipc_client.py:498-506 | running out of time raises and kills |
| AdapterIpc.StartTells | meshsrv/adapter_ipc_client.py:423-447 | failing to launch or to write raises, the latter with a kill |
| AdapterIpc.BeginReuses | meshsrv/adapter_ipc_client.py:423-438 | a call uses the process there is as long as it lives, else a new one |
| AdapterIpc.DoubtIsNotReused | meshsrv/adapter_ipc_client.py:498-560 | over every run, a process is kept after an ordinary reply and never after a timeout or a protocol error |
| AdapterTransport.AdapterIPCTransport.Call | meshsrv/adapter_ipc_client.py:610-668 | the result or the error of one call, and the record it leaves |
| AdapterTransport.AdapterIPCTransport.Report | meshsrv/adapter_ipc_client.py:673-693 | connect, disconnect and reconnect replace the record iff the reply carries connection info; the record stays that of the calls so far |
| AdapterTransport.AdapterIPCTransport.IsConnected | meshsrv/adapter_ipc_client.py:695-696 | true iff some call so far reported a connection and none since failed or reported |
| AdapterTransport.CacheIsLastVerdict | meshsrv/adapter_ipc_client.py:610-702 | after any history the record is what the last failure or report made it, however many calls worked since |
| AdapterTransport.RadioIsLastReported | meshsrv/adapter_ipc_client.py:641-665 | failures keep the descriptor and node id of the last report |
| AdapterTransport.FailureIsRecorded | meshsrv/adapter_ipc_client.py:641-665 | until the next verdict a failure is on record: not connected, its error, no connection time, the radio as it was |
| AdapterTransport.ReportIsRecorded | meshsrv/adapter_ipc_client.py:673-693 | a report is on record as it was given |
| AdapterTransport.SilentCallsKeepRecord | meshsrv/adapter_ipc_client.py:668-735 | calls that report nothing leave the record alone |
| AdapterTransport.ConnectedIff | meshsrv/adapter_ipc_client.py:695-702 | is_connected() iff some call reported a connection and no call since failed or reported: working calls alone never bring a connection back |
| Outgoing.MessageStore.AddMessage | server.py:3049-3149 | a message is appended under the chat it is filed under and the history is cut to its limit from the front |
| Outgoing.MessageStore.UpdateMessageStatus | server.py:3165-3195 | the last message with this id and chat, and no other, takes the result and its ACK deadline |
| Outgoing.MessageStore.ProcessRoutingAck | server.py:2708-2735 | the last message with this packet id settles if it waits for an ACK; nothing else changes |
| Outgoing.MessageStore.AckTimeoutPass | server.py:2744-2768 | exactly the overdue sent messages become unconfirmed |
| Outgoing.MessageStore.ReconcileInterruptedSends | server.py:3197-3222 | after a restart exactly the pending messages have failed |
| Outgoing.MessageStore.DeleteMessage | api/api_chat.py:445-455 | the first message with this id and chat is removed, all others keep their order; it says whether there was one |
| Outgoing.MessageStore.Retry | api/api_chat.py:656-678 | the last message with this id and chat becomes pending again iff it is an outgoing failed one with text; else nothing changes |
| Outgoing.TruncationKeepsNewest | server.py:3142-3143 | the history keeps the newest messages in order, as many as it may hold |
| Outgoing.AckDecides | server.py:2724-2735 | an ACK delivers the last waiting message of its packet, anything else makes it unconfirmed, and no other changes |
| Outgoing.TimeoutDecides | server.py:2755-2768 | a message asking for an ACK is given up exactly 60 s after it was sent |
| Outgoing.DeletedIsGone | api/api_chat.py:445-455 | deleting takes out the one message and nothing else |
| Outgoing.RetryDecides | api/api_chat.py:656-678 | exactly a failed message of one's own with text goes back to pending |
| Outgoing.ReconcileDecides | server.py:3197-3222 | a restart turns pending into failed and nothing else |
| SendProtocol.KeepsInv | api/api_chat.py:193-230 | every step of the protocol keeps the books: one job at most per id, every pending message accounted for |
| SendProtocol.SendStores | api/api_chat.py:595-619 | a send stores one pending message under its chat and holds one job for it |
| SendProtocol.JobsAreFifo | api/api_chat.py:193-218 | jobs are sent in the order they were queued |
| SendProtocol.JobsAskIfDirect | api/api_chat.py:79-86 | over every run a job asks for an ACK exactly if it goes to one node |
| SendProtocol.HandledJobSettles | api/api_chat.py:79-110 | what a handled job makes of its message: accepted is sent with its packet and, if direct, a minute to be acknowledged; anything else is failed; all other messages stay |
| SendProtocol.AnsweredBatch | api/api_chat.py:179-182 | a whole batch: each message is settled by the result at its job's position |
| SendProtocol.ReleasedBatch | api/api_chat.py:153-156 | with the radio released every message of the batch fails |
| SendProtocol.RaisedBatch | api/api_chat.py:221-227 | if the call raises every message of the batch fails |
| SendProtocol.SavedIsRestored | server.py:3197-3222 | a restart starts from what was saved, pending sends failed, no job left |
| SendProtocol.PendingExactly | api/api_chat.py:193-230 | over every run: no two outstanding jobs share an id; a message is pending exactly when one outstanding job carries its id or its job was used up without reaching it; deadlines exist exactly on sent messages with an ACK requested; a restart leaves nothing pending |
| SendProtocol.PendingIffOutstanding | api/api_chat.py:141-230 | without self-addressed sends and short replies, pending means exactly one outstanding job |
| SendProtocol.StuckIffSelfAddressed | server.py:3165-3195 | when the worker handles a stored message's job, the message stays pending iff the job is addressed to the local node |
| SendProtocol.StepAllowed | server.py:2724-2768 | one step, a restart from any history file included, moves a status only pending to sent or failed, failed to pending, or sent-awaiting-ACK to delivered or unconfirmed |
| SendProtocol.FinalForeverIff | server.py:2724-2768 | delivered and unconfirmed never change again over any run, restarts included, iff the saved copy of the message, if any, has that status too |
| SendProtocol.UnsavedDeliveryIsForgotten | server.py:3197-3222 | a restart from a history file older than the delivery brings the message back waiting |
| Recovery.ListenerRecovery.ResolvePausedRecoveryStatus | server.py:3967-4019 | PAUSED for 180 s or more reads as LISTENER_DOWN, and the timer of the pause starts, stays and clears with it |
| Recovery.ListenerRecovery.HealthTick | server.py:4022-4237 | one tick of the recovery machine: new record and whether it restarts, for every status, setting and time |
| Recovery.BudgetTracksHistory | server.py:4103-4111 | the pruned list of attempts is always the true restart history restricted to the window |
| Recovery.AtMostThreePerWindow | server.py:4193-4231 | over every trace with recovery enabled, restart i + 3 comes at least 1800 s after restart i |
| Recovery.DisablingClearsBudget | server.py:4095-4101 | one tick with recovery off lets a fourth restart come early |
| Recovery.RestartIsConfirmed | server.py:4117-4187 | every restart follows a timer at least `delay` old, with every tick since then reporting down, recovery on and nothing pending |
| Recovery.EscalationNeedsLongPause | server.py:3988-4019 | a restart out of PAUSED ends an unbroken series of PAUSED ticks reaching back 180 s |
| Recovery.EscalatesIff | server.py:3988-4019 | recovery takes a tick for a listener that is down iff it is, or PAUSED has been read without a break for 180 s |
| Recovery.DelayDecides | server.py:4055-4063 | the six delays a user can choose, else a minute |
| Recovery.OutageRestartsIff | server.py:4155-4197 | recovery does come: from the beginning of an outage a tick makes the first restart iff it is `delay` later and the budget allows |
| Recovery.FailedRestartRestartsIff | server.py:4117-4148 | a restart that has not helped after 60 s is followed by another, timed from that tick |
| Recovery.RaisedRestartRestartsIff | server.py:4193-4237 | one that raised starts its new timer at once |
| Recovery.RecoveredRestartEnds | server.py:4117-4133 | a listener seen running ends the wait, as does switching recovery off |
| RadioSession.SessionsNeverOverlap | server.py:3508-3543 | for any number of threads, prepare, work and cooldown of two sessions or adapter claims never overlap, and who is in neither does not hold the lock |
| RadioSession.SessionWorksIff | server.py:3423-3437 | in every run a session is admitted iff commands were allowed when it asked, and works iff it was admitted and found the port free; a refused one never prepares |
| RadioSession.SessionGetsToWork | server.py:3508-3533 | on an available radio a session gets to work on a free port, with the listener paused |
| RadioSession.ClaimGetsToWork | meshsrv/serial_port_supervisor.py:652-668 | an adapter claim does so whether the radio is available or not |
| RadioSession.GatedCallBeginsIff | api/api_chat.py:153-156 | a call that asks first begins iff the radio is available |
| RadioSession.WorkIsPaused | server.py:3431-3541 | the listener is paused while anyone prepares or works, unless a restart, a reconnect or a failing release lifts the pause |
| RadioSession.AcquireDecides | server.py:3508-3512 | the lock is taken if it is free, and not otherwise |
| RadioSession.EveryExitUnlocks | server.py:3508-3543 | in every run, from any point of a session and along every exit path, the owner that makes its remaining moves gets out and the lock is then free |
| RadioSession.OwnerProgresses | server.py:3508-3543 | it always has a next step, each of its steps brings it nearer the end, and no other thread moves it |
| RadioSession.LockFreeMeansNotPaused | server.py:3523-3543 | while the radio stays available and nothing raises between a pause and its clear, a free lock with no listener restart under way means a clear pause flag |
| RadioSession.PrepareExceptionLeavesPause | server.py:3423-3437 | an exception while preparing leaves the pause set and the lock free |
| RadioSession.CooldownExceptionLeavesPause | server.py:3534-3541 | so does one in the second wait for the port, before the clear |
| RadioSession.ClaimExceptionLeavesPause | meshsrv/serial_port_supervisor.py:652-669 | so does one while an adapter claim prepares, before its try |
| RadioSession.ReleasePauseSafeIff | meshsrv/radio_manager.py:55-112 | a release keeps its pause over all continuations iff nobody was past the point of asking when stop_listener() paused for it: no session past its check, no adapter claim, no restart under way; otherwise it can end released and unpaused |
| RadioSession.ReleaseKeepsPause | server.py:3523-3543 | sessions and gated adapter calls refused during a release never lift its pause |
| RadioSession.SessionCanLiftRelease | server.py:3540-3541 | a release that begins between a session's check and its clear waits for that session's lock and then finishes unpaused |
| RadioSession.UngatedCallLiftsRelease | meshsrv/serial_port_supervisor.py:652-669 | an adapter call that does not ask whether the radio is available can end any release unpaused |
| RadioSession.RefusedUntilBack | meshsrv/radio_manager.py:51-141 | from the beginning of a release commands are refused until it has failed or a listener has started after a reconnect |
| RadioSession.ReleaseAlone | meshsrv/radio_manager.py:55-112 | undisturbed, a release ends released and paused, or in error and unpaused |
| RadioSession.ReleaseWaitsForLock | meshsrv/serial_port_supervisor.py:295-320 | a release cannot go on while somebody holds the lock |
| RadioSession.ReconnectAlone | meshsrv/radio_manager.py:114-141 | a reconnect lifts the pause and a started listener brings commands back |
| RadioSession.RestartAlone | server.py:5453-5477 | a listener restart is refused while the radio is released; else it pauses, waits for the lock and lifts the pause |
| Dedup.RecentTexts.IsDuplicateText | server.py:3226-3255 | prunes, then answers and remembers; blank texts are neither |
| Dedup.RecentTexts.CleanupPass | server.py:3641-3647 | drops exactly the entries older than 60 s |
| Dedup.PrunedAgreesWithReference | server.py:3226-3255 | with any interleaving of both prunings the answers are those of a memory that never forgets |
| Dedup.AcceptedIff | server.py:3239-3255 | a text is accepted iff it is not blank and no text of its key was accepted less than 15 s before |
| Dedup.KeysDifferIff | server.py:3231-3237 | texts are told apart by sender, node and text without outer blanks, as long as no sender or node contains a bar |
| Dedup.BarIsAmbiguous | server.py:3231-3237 | the bar is not escaped: a text with one can read as one from another node |
| Dedup.MemoryIsRecent | server.py:3240-3247 | after a text nothing older than the window is remembered |
| Telemetry.TelemetryBuffer.QueueTelemetryValues | server.py:2129-2142 | non-null values join the pending ones, later over earlier |
| Telemetry.TelemetryBuffer.ApplyTelemetryValues | server.py:2055-2114 | the board after one application: measured fields, power, battery percent and status |
| Telemetry.TelemetryBuffer.BufferTick | server.py:2145-2167 | once quiet, the whole buffer is applied and emptied |
| Telemetry.DebounceRefinesImmediate | server.py:2129-2167 | for all readings and all splits into batches the measured part equals immediate application, iff something was reported, or the board was coherent, or all was empty |
| Telemetry.LastValueWins | server.py:2135-2140 | after the batches each measured field holds the last non-null value reported |
| Telemetry.BoardShowsLatest | server.py:2062-2103 | the board shows each field as last reported, the power as last voltage times last current, and both battery figures as the charge of the last voltage |
| Telemetry.StatusShowsLatest | server.py:2108-2113 | so do the copied status fields |
| Telemetry.PercentIsTableEntry | server.py:1125-1142 | a voltage's percentage is that of the highest table entry it reaches |
| Telemetry.PercentIsMonotone | server.py:1125-1142 | it never falls as the voltage rises, and lies in 0..100 |
| Telemetry.AppliedIsCoherent | server.py:2055-2103 | any application makes the board coherent, so only a board nothing was applied to can be the exception above |
| Telemetry.ImmediateLevel | server.py:2104-2107 | after immediate application the level is the last reading's usable one, else the voltage's; without a voltage the last usable one |
| Telemetry.DebouncedLevel | server.py:2104-2107 | the same of batches and what each merges to |
| Telemetry.BatteryLevelAgreesIff | server.py:2104-2107 | for all readings and all splits into batches, with or without a voltage, when both agree on the battery level |
| Telemetry.ChargingHidesLevel | server.py:2104-2107 | without a voltage, a usable level followed by 101 in one batch is lost |
| LoginThrottle.DelayIsCappedDoubling | api/api_auth.py:132-157 | for every count the capped exponent gives min(2 * 2^(n-5), 300) |
| LoginThrottle.LoginGate.Prune | api/api_auth.py:296-302 | drops exactly the entries unused for a day |
| LoginThrottle.LoginGate.Login | api/api_auth.py:377-415 | locked clients are refused unchecked; success clears the entry; failure counts and locks |
| LoginThrottle.SweepKeepsLocks | api/api_auth.py:296-302 | after any traffic, sweeping never frees a client still locked out |
| LoginThrottle.AnswerIff | api/api_auth.py:377-415 | over all traffic, from a plain account of it without any table: throttled iff the streak's lock-out runs, else logged in iff the password is right |
| LoginThrottle.TableMirrorsStreak | api/api_auth.py:296-302 | the swept table always is that account: an entry holds how many failures were in a row and the lock-out that stands for |
| LoginThrottle.RightPasswordGetsIn | api/api_auth.py:381-409 | the right password gets in after five quiet minutes, or after fewer than five wrong ones |
| LoginThrottle.StreakIsPaid | api/api_auth.py:381-415 | the streak has lasted at least what its failures cost |
| LoginThrottle.StreakIsSlow | api/api_auth.py:381-415 | in a streak the (13+k)-th wrong password that is checked comes at least 510 + 300 k seconds after the first |
| JsonValue.DeepMerge | api/api_settings.py:103-121 | the loop computes the merge the lemmas below describe |
| JsonValue.MergeLooksUp | api/api_settings.py:103-121 | what every key holds after the merge: untouched if the update does not name it, merged if both are dictionaries, else the update's value |
| JsonValue.MergeIsIdempotent | api/api_settings.py:103-121 | merging the same update twice is merging it once, to the order of keys |
| JsonValue.LowerFolds | api/api_settings.py:153 | lower() folds capital ASCII letters and nothing else |
| PyText.StripDropsBlanks | api/api_settings.py:153 | strip() takes away nothing but blanks at both ends |
| Settings.NormalizeSettings | api/api_settings.py:147-557 | gives allowed values only, and what normalizing its own result gives |
| Settings.NormalizeProfiles | api/api_settings.py:354-391 | the loop over raw profiles, of waypoints and of timers, is the function the next two lemmas describe |
| Settings.LastEntryCounts | api/api_settings.py:354-391 | a profile holds what the last entry naming it says, however the id is spelt |
| Settings.UnnamedProfileIsAbsent | api/api_settings.py:355-360 | no entry or an impossible id: no profile |
| Settings.NormalizedIsGood | api/api_settings.py:147-557 | whatever JSON comes in, only allowed values come out |
| Settings.FixedIffGood | api/api_settings.py:147-557 | settings survive normalization exactly when every value is an allowed one |
| Settings.NormalizeIsIdempotent | api/api_settings.py:147-557 | normalizing twice is normalizing once, for every JSON document |
| Settings.NormalizerIsIdempotent | api/api_settings.py:147-557 | the same of the function the routes are given |
| Settings.NormalizerIsSectionWise | api/api_settings.py:147-557 | each key of the result depends on that key of the input alone |
| Settings.NothingNormalizesToDefaults | api/api_settings.py:11-100 | no settings at all normalize to the default settings |
| Settings.ChoiceDecides | api/api_settings.py:153-158 | a text that cleans to an allowed word is that word; anything else gives the default |
| Settings.ClampIsNearest | api/api_settings.py:203 | a number out of bounds becomes the nearest bound |
| Settings.NumberDecides | api/api_settings.py:198-201 | a number is read if it can be, else the default counts |
| Settings.CoordinateDecides | api/api_settings.py:124-136 | a coordinate in range is kept, one outside dropped |
| Settings.FlatCoordinates | api/api_settings.py:288-303 | coordinates of the old flat form count where there are no manual ones |
| Settings.WaypointProfileReads | api/api_settings.py:362-391 | a waypoint profile is read over the global defaults |
| Settings.TimerProfileReads | api/api_settings.py:446-455 | so is a timer profile |
| Settings.RestartForgetsClock | server.py:1382-1431 | loading stored settings gives them back with the 24-hour clock, so unchanged iff that was set |
| Settings.PostedSettingsAreRead | api/api_settings.py:611-670 | with the real normalizer, what a post answers is what is stored and what every read returns until the next successful post |
| Settings.PostedSettingsAreStored | api/api_settings.py:655-670 | posting allowed settings stores, answers and later reads exactly those, laid over what was stored: profiles they do not name stay |
| Settings.UnnamedSettingsStay | api/api_settings.py:611-670 | with the real normalizer, a section no post names still reads as before |
| SettingsRoutes.SettingsStore.GetSettings | api/api_settings.py:611-622 | a read gives what the last successful post answered, and something normalizing leaves alone |
| SettingsRoutes.SettingsStore.PostSettings | api/api_settings.py:644-670 | refuses non-objects unchanged; else merges, normalizes, stores and answers |
| SettingsRoutes.UpdateOfBody | api/api_settings.py:646-654 | what a body asks for, with and without a "settings" key, and when it is refused |
| SettingsRoutes.PostAppliesUpdate | api/api_settings.py:655-670 | a post applies its update: under every key the answer and every later read are what normalizing makes of the update laid over the settings |
| SettingsRoutes.AnswerIsStoredAndRead | api/api_settings.py:655-670 | a successful post answers exactly what it stored, and every later read returns that until the next successful post |
| SettingsRoutes.UnnamedSectionsStay | api/api_settings.py:655-670 | a section no update of a history names still reads as before it |
| Instance.GeneratedIsValid | meshsrv/installation_identity.py:25-39 | every id that can be minted has the accepted form |
| Instance.InstanceManager.LoadOrCreate | meshsrv/instance_manager.py:202-227 | normalizes what it can read of the file, writes iff that differs, and fails without effect if it cannot write |
| Instance.InstanceManager.Save | meshsrv/instance_manager.py:258-265 | normalizes the data over the current identity and writes it, or fails without effect |
| Instance.NormalizedIsClean | meshsrv/instance_manager.py:62-187 | from any input every text is stripped, mandatory ones are filled and the id is valid |
| Instance.FreshInstallation | meshsrv/instance_manager.py:42-46 | a new installation is named after its machine, with a new id and nothing else |
| Instance.FlatRadioMigrates | meshsrv/instance_manager.py:88-107 | the radio of an old flat document is read field by field over the defaults |
| Instance.FlatRuntimeMigrates | meshsrv/instance_manager.py:115-132 | so is what it says of the last run |
| Instance.NestedBeatsFlat | meshsrv/instance_manager.py:88-107 | a nested radio comes before flat keys, and those before the defaults |
| Instance.ConfiguredNames | meshsrv/instance_manager.py:88-95 | the names of an older "configured" block come before the defaults only |
| Instance.NormalizeAgain | meshsrv/instance_manager.py:62-187 | normalizing again for the same defaults changes at most the host name |
| Instance.IdempotentIff | meshsrv/instance_manager.py:73-76 | and is idempotent iff the host name reads back as itself |
| Instance.SecondLoadWritesIff | meshsrv/instance_manager.py:202-227 | after a load that succeeded, the next one writes iff it cannot read the file or stripping changes the host name |
| Instance.ThirdLoadWritesIff | meshsrv/instance_manager.py:202-227 | from any file, the third load writes nothing if it and the second can read; and exactly when it writes otherwise |
| Instance.LoadCarries | meshsrv/instance_manager.py:132-163 | a load that succeeds leaves one valid id in file and memory: the one it read, else the defaults', if valid |
| Instance.LoadKeepsIdIff | meshsrv/instance_manager.py:48-60 | a load that can write keeps the id iff it can read the file or its defaults bring the same id |
| Instance.SaveKeepsIdIff | meshsrv/instance_manager.py:132-187 | a save keeps the id iff its data omits or repeats it |
| Instance.IdNeverRegeneratedIff | meshsrv/instance_manager.py:132-265 | over every run, failures to read and to write included, a valid id is carried throughout iff every load can read, brings the id or cannot write, and every save omits or repeats the id or cannot write |
| Instance.SaveBeforeLoadReplacesId | meshsrv/instance_manager.py:258-265 | a save before any load mints a new id whatever the file holds |
| Instance.SavingUnchangedDataKeepsIt | meshsrv/instance_manager.py:258-265 | saving back what was loaded changes at most the host name |
| Instance.ErrorStays | meshsrv/instance_manager.py:117-119 | a recorded error outlives every save that brings no new one |
| I2cTable.ParseRow | hardware/i2c_service.py:108-114 | every column that shows a device yields row value plus column, in order, whatever its text |
| I2cTable.CellIsAddress | hardware/i2c_service.py:111-113 | a printed cell counts iff its address answered: UU counts, blanks and -- do not |
| I2cTable.ParseI2cdetectOutput | hardware/i2c_service.py:98-116 | the result is the found addresses, each once, ascending |
| I2cTable.SortedSetSorts | hardware/i2c_service.py:116 | sorted(set(x)) holds the same strings, strictly ascending |
| I2cTable.AddressOrder | hardware/i2c_service.py:114-116 | for 7-bit addresses text order is numeric order |
| I2cTable.ListedIsExact | hardware/i2c_service.py:114 | the list the theorem names holds exactly the devices' addresses |
| I2cTable.ParsePrintedTable | hardware/i2c_service.py:82-116 | parsing undoes printing for every set of addresses and any subset shown as UU |
| JsonBlock.ExtractJsonBlock | server.py:768-785 | the shortest balanced block from the first brace, or none exactly when there is none |
| JsonBlock.SearchFromIsFind | server.py:768-771 | the search starts where str.find() starts, from the end for a negative position |
| JsonBlock.BlockIsUnique | server.py:768-785 | a block excludes every other block and "none" |
| JsonBlock.PrintedObjectIsTheBlock | server.py:768-785 | from any position with no opening brace before a printed object without braces in its strings, that object is the block, whatever surrounds it |
| JsonBlock.ExtractPrinted | server.py:768-785 | so the search returns exactly that object's text |
| Bme280.RawIsExact | hardware/bme280_service.py:278-281 | 20-bit and 16-bit assembly is exact: every byte is found again in its bits |
| Bme280.CalibrationTrims | hardware/bme280_service.py:92-135 | trims are the two's-complement values of their bytes; H4 and H5 are never negative and right iff their top bit is 0 |
| Bme280.TFineIsBounded | hardware/bme280_service.py:138-145 | for all register bytes t_fine lies strictly within 2^22 |
| Bme280.TFineIsClose | hardware/bme280_service.py:138-143 | for all trims and readings t_fine is within 80 counts, less than two hundredths of a degree, of the formula without truncation |
| Bme280.TemperatureIsRounded | hardware/bme280_service.py:144 | the temperature is t_fine / 5120 degrees rounded to the nearest hundredth |
| Bme280.TemperatureIsMonotone | hardware/bme280_service.py:138-145 | temperature does not fall as the raw reading rises, for non-negative T2, T3 and readings from T1 up |
| UsbCamera.UsbCameraDriver.SizesForPixelFormat | camera/usb_driver.py:195-214 | the loop collects the usable sizes of one format |
| UsbCamera.SizesAreAdvertised | camera/usb_driver.py:195-214 | exactly the advertised sizes with both dimensions, smallest area first |
| UsbCamera.NegotiationProjects | camera/usb_driver.py:822-889 | a negotiated mode negotiates to itself |
| UsbCamera.RawModeIsOffered | camera/usb_driver.py:849-871 | without MJPEG the rate is capped at 10 and the size is the requested one if offered, else one of least area |
| UsbCamera.CompressedModeIsAsRequested | camera/usb_driver.py:838-847 | with MJPEG the request is taken as it is |
| UsbCamera.NoModeIff | camera/usb_driver.py:823-848 | there is no mode iff the request is no size or the camera offers neither format |
| UsbCamera.UsbCameraDriver.ApplyFormat | camera/usb_driver.py:822-889 | takes on the negotiated mode, or fails with nothing changed |
| UsbCamera.UsbCameraDriver.Start | camera/usb_driver.py:386-475 | every outcome of a start: a running stream ignores the request; each failure leaves its own state |
| UsbCamera.UsbCameraDriver.Stop | camera/usb_driver.py:477-515 | stops, drops the published frame and starts a new generation; the reader keeps a frame in hand if it outlives the wait |
| UsbCamera.StartTakesMode | camera/usb_driver.py:415-432 | a start that works runs in the mode negotiated for what was asked, or for the settings it has |
| UsbCamera.StopDecides | camera/usb_driver.py:477-515 | a stop leaves nothing running and no frame |
| UsbCamera.TargetDecides | camera/usb_driver.py:605-608 | a photo is taken at the resolution asked for, else the widest, else the current one |
| UsbCamera.UsbCameraDriver.WaitForFrame | camera/usb_driver.py:650-663 | the first frame seen while other threads act, or none |
| UsbCamera.UsbCameraDriver.CapturePhoto | camera/usb_driver.py:604-648 | the photo and the stream afterwards, on every path |
| UsbCamera.SwitchResumesIff | camera/usb_driver.py:604-648 | after a photo at another resolution the stream runs at its old settings iff the camera can be reopened with them, whatever others did meanwhile; the generation has grown |
| UsbCamera.CaptureRestores | camera/usb_driver.py:574-648 | after any history on a camera with a stable size list, an undisturbed photo from a running stream restores exactly its mode; the generation grows iff a switch was needed |
| UsbCamera.LeftoverIff | camera/usb_driver.py:684-779 | on a stream just started, readers can publish a frame of an earlier stream iff one of theirs is still decoding one |
| UsbCamera.PhotoIsAtTargetIff | camera/usb_driver.py:477-634 | a photo that needed another resolution shows the negotiated mode, whatever the readers do, iff stop() saw the interrupted reader end or that reader held no frame, and no earlier one holds any |
| UsbCamera.PhotoIsNew | camera/usb_driver.py:605-634 | the photo is then a frame taken while it was waited for |
| UsbCamera.StopDuringPhotoIsUndone | camera/usb_driver.py:633-648 | a stop made while the photo is waited for does not last |

## Left out

- RepliesInStep: runs in which a reader thread cannot be created are excluded; ThreadExhaustionBreaksStepIff says when they do break it.
- LockFreeMeansNotPaused: excludes releases and reconnections, which own the pause, and exceptions between a pause and its clear, whose witnesses are the three exception lemmas.
- ReleasePauseSafeIff: continuations with a new adapter call that does not ask for availability are excluded; UngatedCallLiftsRelease shows that such a call lifts any release.
- Call: how the time spent claiming the serial port shortens the call's own timeout, and the fields of results other than connection info.
- AddMessage: how the server infers a chat from sender and node, and its bookkeeping of unread counts and last messages.
- ApplyTelemetryValues: time stamps and the history record.
- LoadOrCreate: a file whose bytes are not UTF-8, on which the load raises and changes nothing, is not modelled.
- ParseI2cdetectOutput: takes the output as lines; splitting text at line ends, and row labels beyond ASCII, are not modelled.
- HumidityIsAPercentage: only the clamp; the humidity polynomial has no second definition here to compare it with.
- SizesForPixelFormat: sizes of equal area keep their order of appearance; Python leaves that to the iteration order of a set.
- WaitForFrame: the three-second deadline is not modelled in time; a wait that saw no frame is one whose calls publish none.
- NormalizeSettings: NaN, infinities and numbers beyond the range of a double, on which Python's int and float raise other errors or return NaN, are not modelled; reading numbers from text that is not ASCII, and the text of numbers and containers, are parameters.
- HealthTick: log lines and the flags that only decide whether a line is logged.
- `AdapterSupervisor.call` and `radio_session` are step machines over values, not class methods: their point is interleaving, which a sequential method cannot show. Update in place and aliasing are not captured there.
- Result handlers of the send worker that raise halfway through a batch, and error texts.
- `/api/clear_chat`, `/api/delete_chat` and deleting all direct messages, which rebind the server's list while the chat routes keep the old one.
- The pause set at start-up when the radio's identity does not match, sessions and claims nested in one thread, and the listener loop's own brief holds of the radio lock.
- The BME280 pressure value: extreme trims leave 64 bits, and Python does not mind.
- Two login requests of one client handled at the same time.
- `_reconfigure`, idle-watchdog timing and frame conversion of the camera: the watchdog's effect, a stop, is one of the calls other threads may make.
- Installation time stamps, the system log entry for a replaced id, and `peek`.
- Flask routing, sessions, CSRF, HTML, BLE, serial ports, SQLite, e-paper, weather, updates: plumbing without a protocol of its own.
