# Garden: a verified model

[Garden](https://github.com/cloudfoundry/garden) is a Go client and server for
containers. This project models the parts of it whose correctness depends on order and
timing, as transition systems over every interleaving and as the imperative code that
takes those steps, and proves what they guarantee.

* **Reaping.** A container that no client refers to for its grace time is destroyed.
  `TimeBomb.dfy` is the bomb with its pause counter and timer, `Bomberman.dfy` the one
  loop that owns all bombs, `Reaper.dfy` the whole system: request handlers, the manager,
  the clock, expiring timers, client destroys and reaps. `ReaperTheorems.dfy`,
  `ReaperRequests.dfy` and `DestroyGuard.dfy` hold the results, `ReaperLimits.dfy` and
  `ZeroGrace.dfy` where they end.
* **Process output.** `OutputPipeline.dfy` is the bounded queue that drops when full with
  any number of serve loops on it, `ChanWriter.dfy` the same as code over byte slices,
  `StreamIDs.dfy` the registry of streams, `OutputCopies.dfy` the client's copies into
  its two shared writers.
* **Process control.** `ProcessInput.dfy` is the client's calls against the server's input
  loop, `ServerProcess.dfy` the server's two loops sharing one stdin pipe and connection,
  `ServerHistory.dfy` its state told by its past,
  `ClientProcess.dfy` the client's waiting, from its wait loop to the callers of Wait.
* **Values.** `IPRanges.dfy` is the range of a network, `HandleList.dfy` the handle list
  of the bulk calls.

A run is a sequence of states and of the labels between them; a theorem about position
`i` of a run holds for every run and every `i`. A source object that is updated in place
is a class. The methods of `TimeBomb`, `Bomberman`, `Streamer` and `ProcessStream` are
proved to do exactly what a function on values says, and the transition systems use that
function; those of `Guard`, `Process`, `ChanWriter` and the serve loop state their effect
directly. Go's pointer identities are numbers given out in order; timers, clock, connections,
backend answers, scheduling and select choices are labels or parameters.

## What holds only under a condition

* A bomb's counter is the number of requests holding it as long as no Unpause reaches a
  bomb that the same request's Pause missed. `AccountedIffMatched` shows that this is
  exact. A request that arrives between a container's creation and its strapping breaks
  it: `UnmatchedUnpauseLosesCountdown` (an unheld container without a timer) and
  `UnmatchedUnpauseLetsHeldBombTick` (a bomb that ticks under a request). What the two
  promises need in any run is exact too: no countdown is lost exactly if no Pause finds a
  counter of -1 on a bomb with a grace time (`NeverLostIff`), a countdown lost in this way
  comes back exactly by the steps in `LostCountdownReturnsIff`, and a held bomb never ticks
  exactly if no step arms it under a holder (`HeldNeverTicksIff`).
* The map can lose sight of a ticking bomb. `ReachableIffNoOrphan` gives the exact
  condition, `SecondCreateOrphansTimer` an instance. The defuse after a client destroy can
  hit the bomb of a new container with the same handle, exactly if it was created
  meanwhile: `LateDefuseHitsNewContainerIff`, `LateDefuseDisarmsNewContainer`.
* A container is destroyed only after a whole grace time in which no request held its
  bomb. A request for it can have been running all the same, exactly if its Pause missed
  the bomb (`ReapFollowsUnreferencedGraceTime`), that is if it began before the bomb was
  strapped or after the handle was strapped again, defused or cleaned up
  (`PauseReachesBombIff`): `EarlyRequestIsOvertaken`, `LaterRequestIsOvertaken`. Nor does a
  request that begins after the expiry stop the reap: `HeldContainerIsReaped`.
* A grace time of zero means never reaped, with three exceptions. After a setting to zero a
  new reap can come exactly if the setting arms a timer itself or misses the bomb of a
  running one (`ZeroGraceReapIff`, `ZeroGraceIsReaped`, `ZeroGraceMissedIsReaped`), and a
  reap already on its way goes on (`ZeroGraceInFlightIsReaped`). `ZeroGraceReapCause` shows
  that there is no fourth.
* A range equals its network exactly for a prefix mask without host bits
  (`RangeFromNetExact`), and never for an IPv4 network in 16-byte form with a 4-byte mask
  (`MixedFormsNeverMatch`), although the function's comment promises it for any network.
* Handles survive the bulk calls exactly if they have no commas and are not one empty
  handle: `HandlesSurviveIff`.
* Stream ids are distinct for 2^64 calls, not longer: `IdsCollideIff`,
  `WrappedIdTakesOver`, `WrapIsReachable`.
* Signals and terminal changes are lost once stdin was closed, the connection was lost or
  a write to stdin has failed, and only then (`ListensIff`, `FailedWriteLosesControls`).
  They wait behind a write that the process does not read, for ever if it never does
  (`PendingWriteHoldsBack`). `ControlReachesProcessIff` says the same of the calls made.
* A server stop ends the process's stdin with an error, unless the process's result had
  been reported, the client had closed stdin, the process had, or the process leaves a
  write unread: `StoppedInputEnds`.
* Wait can return during an output copy exactly if the second stream fails to attach:
  `ResultBeforeCopiesIff`, `FailedAttachDoesNotWait`.

## Model

| member | source | states |
|---|---|---|
| TimeBombs.TimeBomb.Strap | server/timebomb/timebomb.go:27-31 | Does to the bomb and to the runtime's timers exactly what `Call` says of Strap |
| TimeBombs.TimeBomb.Pause | server/timebomb/timebomb.go:33-47 | As `Call` says of Pause; reports false exactly if the stored timer had already gone off |
| TimeBombs.TimeBomb.Defuse | server/timebomb/timebomb.go:49-63 | As `Call` says of Defuse; reports false exactly if the stored timer had already gone off |
| TimeBombs.TimeBomb.Unpause | server/timebomb/timebomb.go:65-74 | As `Call` says of Unpause, counter below zero included |
| TimeBombs.TimeBomb.Reset | server/timebomb/timebomb.go:76-89 | As `Call` says of Reset, which looks neither at `defused` nor at a zero countdown |
| TimeBombs.CallKeepsInv | server/timebomb/timebomb.go:27-89 | After any call the manager may make, every pending timer of the bomb is the stored one, counts the current countdown, and a paused or defused bomb stores none; timers of other bombs are untouched |
| Bombermen.ManageKeepsInv | server/bomberman/bomberman.go:69-132 | Every signal keeps the invariant of every bomb and of the map: mapped bombs carry their own handle and are never defused |
| Bombermen.Bomberman.StrapContainer | server/bomberman/bomberman.go:78-90 | The heap after strapping is the one `Manage` describes: a new bomb, mapped over any old one, armed unless the grace time is zero |
| Bombermen.Bomberman.CallBomb | server/bomberman/bomberman.go:92-126 | A signal for an unmapped handle changes nothing; otherwise exactly the mapped bomb is called and no other object changes |
| Bombermen.Bomberman.Receive | server/bomberman/bomberman.go:72-130 | One iteration of the loop takes the heap from what `core` describes to what `Manage` says |
| Bombermen.Bomberman.ManageBombs | server/bomberman/bomberman.go:69-132 | The loop over any sequence of signals refines `ManageAll` |
| Bombermen.ManageAllThen | server/bomberman/bomberman.go:69-132 | The loop over one sequence of signals and then another is the loop over both |
| Bombermen.ManageAllOne | server/bomberman/bomberman.go:72-130 | The loop over one signal is one iteration |
| Reaper.CoreFollowsManager | server/bomberman/bomberman.go:69-132 | In every run, between clock ticks and expiries, bombs, map and timers are what the loop makes of exactly the signals sent, in order |
| Reaper.InvAt | server/bomberman/bomberman.go:69-132 | In every state of every run the manager's invariant holds, and every reap stems from a fired timer of a bomb with its handle |
| ReaperTheorems.AccountedIffMatched | server/request_handling.go:191-192 | Counters equal the number of holding requests after a step exactly if the step's Unpause hits the bomb its Pause hit |
| ReaperTheorems.HeldBombCannotExpire | server/timebomb/timebomb.go:33-89 | In every matched run the counter is the number of requests whose Pause reached the bomb and whose Unpause has not; while there is one, no timer of the bomb is pending and no expiry of it can happen |
| ReaperTheorems.MappedBombCountsRunningRequests | server/request_handling.go:191-192 | For a mapped bomb these are exactly the requests that paused it and are still running |
| ReaperTheorems.PendingStep | server/timebomb/timebomb.go:27-89 | A timer pending after a matched step was pending before and its bomb not called, or was armed by the step |
| ReaperTheorems.ExpiryAfterGraceTime | client.go:69-73 | In every matched run the timer that expires at time t was armed by a step at some a with a + current countdown <= t, and since that step there was no call on the bomb and no request holding it |
| ReaperRequests.ReapFollowsUnreferencedGraceTime | server/server.go:306-333 | In every matched run, at any point of a reap, its own timer had expired after such a whole grace time of that container; the requests running for it in that time are exactly the running ones whose Pause missed the bomb, those running under the reap exactly the running ones that missed it or began after the expiry, and who holds the bomb began after the expiry |
| ReaperRequests.PauseReachesBombIff | server/bomberman/bomberman.go:76-129 | In every run a Pause of a handle reaches a bomb exactly if the bomb was strapped for it before and the handle was not strapped again, defused or cleaned up since |
| ReaperTheorems.CountingManageIff | server/timebomb/timebomb.go:33-89 | A signal keeps a timer stored with every mapped, unpaused bomb that has a grace time exactly if it is not a Pause of such a bomb at counter -1 |
| ReaperTheorems.NeverLostIff | server/timebomb/timebomb.go:33-89 | In every run, matched or not, this holds of all states exactly if no step is such a Pause |
| ReaperTheorems.NoLostCountdown | server/timebomb/timebomb.go:65-89 | In every matched run a mapped bomb nobody holds, with non-zero countdown, stores a timer with that countdown, and that timer is pending or has gone off |
| ReaperTheorems.UnreferencedContainerGetsDestroyed | client.go:69-73 | In every matched run the timer such a bomb stores has gone off and its reap is under way or over, or the clock advancing by the countdown, the expiry and the reap can follow at once, and the reap reaches the backend exactly if the handle is not being destroyed already |
| ReaperTheorems.UncalledBombGoesOff | client.go:69-73 | In every continuation that does not call the bomb, once the countdown has passed the reap of its timer is there or the expiry can happen |
| ReaperTheorems.DefusedStaysSilent | server/bomberman/bomberman.go:92-100 | From the moment a bomb is defused, at every later point it has no pending timer, is not mapped and is never called, late Unpauses and Resets included |
| ReaperTheorems.DestroyedContainerIsDisarmed | server/request_handling.go:164-168 | The defuse after a client destroy unmaps the handle and silences its bomb for good |
| ReaperTheorems.ReapedContainerIsForgotten | server/bomberman/bomberman.go:128-129 | After the cleanup of a reap the handle is unmapped in every later state until a create of it; the cleanup changes no other mapping, bomb or timer |
| ReaperTheorems.ReachableIffNoOrphan | server/bomberman/bomberman.go:76-129 | A signal keeps every pending timer of a handle with the mapped bomb exactly if it is not a strap or cleanup of that handle while the mapped bomb's timer is pending |
| ReaperTheorems.TimersStayReachable | server/bomberman/bomberman.go:76-129 | While no bomb of a handle has expired and no create comes for it when mapped, every pending timer of it belongs to the mapped bomb |
| ReaperLimits.UnmatchedUnpauseLosesCountdown | server/request_handling.go:85-93 | For every handle and non-zero grace time: a run that ends with the container mapped, unheld and all timers stopped, its counter one short |
| ReaperLimits.LostCountdownReturnsIff | server/timebomb/timebomb.go:65-89 | Over matched steps a bomb whose counter is one short stays without a timer exactly if its grace time is not set under one holder and no second of two holders leaves while it is not zero |
| ReaperLimits.UnmatchedUnpauseLetsHeldBombTick | server/request_handling.go:85-93 | For every handle and non-zero grace time: a run in which a held bomb has a pending timer |
| ReaperLimits.HeldNeverTicksIff | server/timebomb/timebomb.go:65-89 | In every run, matched or not, a bomb never has a pending timer while held exactly if no Unpause or Reset arms it while somebody goes on holding it |
| ReaperLimits.SecondCreateOrphansTimer | server/bomberman/bomberman.go:87 | For every handle and non-zero grace time: a matched run after which the first bomb's timer is pending and a Pause of the handle leaves it so |
| ReaperLimits.LateDefuseHitsNewContainerIff | server/request_handling.go:151-168 | The defuse after a client destroy hits a bomb made since the backend answered exactly if a create of the handle came in between |
| ReaperLimits.LateDefuseDisarmsNewContainer | server/request_handling.go:151-168 | For every handle and non-zero grace time: a matched run that ends with the new container alive, unmapped and defused, while the old bomb of its handle ticks |
| ReaperLimits.HeldContainerIsReaped | server/server.go:306-333 | For every handle: a matched run in which a reap is inside the backend's Destroy while a request holds the mapped bomb |
| ReaperLimits.EarlyRequestIsOvertaken | server/request_handling.go:85-93 | For every handle: the same under a request that began before the container was strapped and ran through the whole grace time |
| ReaperLimits.LaterRequestIsOvertaken | server/bomberman/bomberman.go:128-129 | For every handle: the same under a request that began before the expiry, after a failed reap had unmapped the ticking bomb |
| ZeroGrace.ZeroGraceExpiryIff | server/timebomb/timebomb.go:71-88 | In every matched run an expiry finds its bomb's countdown zero exactly if the step that armed the timer set the grace time to zero, and a step of that kind found the bomb unpaused or storing a timer |
| ZeroGrace.ZeroGraceArmsOnlyByReset | server/timebomb/timebomb.go:71-88 | A signal arms a timer with countdown zero exactly if it is a reset to zero of a bomb that is unpaused or still stores a timer |
| ZeroGrace.ZeroCountdownReapIff | server/timebomb/timebomb.go:71-88 | At any point of a reap in a matched run its bomb's countdown is zero exactly if the last setting that reached the bomb was to zero and either armed the timer that expired or came after the expiry |
| ZeroGrace.ZeroGraceReapCause | server/bomberman/bomberman.go:102-108 | In every run, if the last setting for a handle was to zero, any later reap of it was there already, or its timer was armed by that setting, or the setting missed the bomb of its timer |
| ZeroGrace.ZeroGraceReapIff | server/bomberman/bomberman.go:102-108 | After any run that ends by setting a handle to zero, some continuation without a further setting has a new reap of it exactly if the setting reset a mapped bomb that was unpaused or stored a timer, or missed the bomb of a pending timer |
| ZeroGrace.ZeroGraceIsReaped | server/timebomb/timebomb.go:76-88 | For every handle: a matched run that ends inside the backend's Destroy with a timer that the setting to zero armed |
| ZeroGrace.ZeroGraceInFlightIsReaped | server/timebomb/timebomb.go:76-88 | For every handle: a matched run that ends so with a reap that was on its way at the setting to zero |
| ZeroGrace.ZeroGraceMissedIsReaped | server/bomberman/bomberman.go:102-129 | For every handle: a matched run that ends so after a setting to zero that found no bomb, because a failed reap had unmapped it |
| DestroyGuard.DestroysAreExclusive | server/request_handling.go:135-157 | At most one backend Destroy per handle is in progress; a handle is marked exactly if one and only one actor owns it |
| DestroyGuard.LoserKeepsOwnersMark | server/server.go:312-332 | Until its owner leaves, a mark stays, whatever losing clients and reaps do |
| DestroyGuard.FailedDestroyCanBeRetried | server/request_handling.go:135-157 | In every state a new destroy of a handle reaches the backend exactly if nobody owns the mark of that handle; when all actors are past the guard no mark is left |
| DestroyGuard.DefusedExactlyAfterSuccess | server/request_handling.go:151-168 | A finished client destroy defused the bomb exactly if the backend succeeded; a finished reap always cleaned up |
| DestroyGuard.Guard.TryMark | server/request_handling.go:135-142 | Reports whether the handle was marked and leaves it marked, changing no other |
| DestroyGuard.Guard.Unmark | server/request_handling.go:153-157 | Removes exactly that mark |
| DestroyGuard.Guard.HandleDestroy | server/request_handling.go:128-169 | Run alone: refuses a marked handle, leaves the marks as they were whatever the backend answers, defuses only on success |
| DestroyGuard.Guard.ReapContainer | server/server.go:306-333 | Run alone: calls the backend exactly if the handle was unmarked and leaves the marks as they were |
| OutputPipeline.ChunksAreConserved | server/streamer/streamer.go:53-94 | At every step, with any number of servers: accepted chunks are those taken then those queued, and each server's sent chunks and the one in hand are exactly those it took, in order |
| OutputPipeline.SentIsSubsequence | server/streamer/streamer.go:70-94 | Each server's output is a subsequence of the accepted chunks |
| OutputPipeline.AcceptedIsSubsequence | server/chanwriter.go:11-24 | Accepted chunks are a subsequence of those written |
| OutputPipeline.DropsOnlyWhenFull | server/chanwriter.go:16-21 | Nothing was dropped exactly if no write met a full queue |
| OutputPipeline.SoleServerKeepsOrder | server/streamer/streamer.go:70-82 | With one server: sent, in hand and queued chunks, in this order, are all accepted chunks |
| OutputPipeline.StopDrainsEverything | server/streamer/streamer.go:70-112 | Whichever branches were taken, a sole server that has returned because of Stop has sent everything accepted before Stop, once and in order, and nothing else |
| OutputPipeline.ReturnsForACause | server/streamer/streamer.go:70-94 | A server returns early exactly after a write error in its select loop, and drains or returns otherwise only once stopped |
| OutputPipeline.StoppedServerReturns | server/streamer/streamer.go:70-94 | The steps a server takes are bounded by twice the queued and future chunks plus three |
| OutputPipeline.StoppedServerIsNeverBlocked | server/streamer/streamer.go:70-94 | Once stopped, a server has a step to take exactly until it has returned |
| OutputPipeline.ChunkCanBeServed | server/streamer/streamer.go:53-112 | For every chunk and queue size: a run that writes it, serves it and stops the server with the queue drained |
| ChanWriters.ChanWriter.Write | server/chanwriter.go:11-24 | Enqueues a fresh copy if there is room, drops it otherwise, reports the full length and no error |
| ChanWriters.ChanWriter.CopyOutput | server/chanwriter.go:11-24 | Through one buffer overwritten by every read, each queued chunk keeps the bytes it had when written |
| ChanWriters.FirstChunksAreKept | server/chanwriter.go:11-24 | Of any chunks written one after another exactly as many as find room are queued, the first ones, in order |
| ChanWriters.Drain | server/streamer/streamer.go:84-94 | Empties the channel into the writer in order |
| ChanWriters.Pass | server/streamer/streamer.go:71-81 | One select conserves writer output followed by queue; it stops exactly if done is closed and chosen or nothing is queued, leaving nothing; otherwise it forwards exactly the first chunk if there is one, and fails exactly if that write does |
| ChanWriters.Serve | server/streamer/streamer.go:70-82 | Over any schedule the loop makes such passes one after another, going on exactly while it is serving; writer output then queue is what was queued at the start then what was accepted |
| ChanWriters.ServeConserves | server/streamer/streamer.go:70-94 | The same after each pass; a loop that stopped leaves the queue empty, and one that failed met a failing write |
| ChanWriters.PassIsPath | server/streamer/streamer.go:70-94 | Every pass of the code is a path of the transition system |
| StreamIDs.ParseDecimal | server/streamer/streamer.go:126-128 | Decimal printing can be read back, for every number |
| StreamIDs.IdsCollideIff | server/streamer/streamer.go:122-128 | Two calls get the same id exactly if their numbers agree modulo 2^64 |
| StreamIDs.IdsDistinct | server/streamer/streamer.go:45-50 | In every run of up to 2^64 Stream calls the ids are pairwise distinct |
| StreamIDs.IdResolvesToItsStream | server/streamer/streamer.go:97-120 | An id is found exactly until its own delayed delete, and leads to its own channels |
| StreamIDs.StreamToldByPast | server/streamer/streamer.go:97-112 | In every run of up to 2^64 calls a stream's done channel is closed exactly if a Stop came that found it, it is found exactly until its delayed delete, and that delete is to come exactly if it was stopped and not deleted |
| StreamIDs.DoneIsClosedOnce | server/streamer/streamer.go:97-104 | No second Stop finds a stopped stream |
| StreamIDs.StopAndDeleteCanHappen | server/streamer/streamer.go:97-112 | A run of Stream, Stop and Delete that closes the channel and empties the registry |
| StreamIDs.DeleteRemovesOnlyTheStopped | server/streamer/streamer.go:105-111 | A delayed delete removes a stopped stream and no other |
| StreamIDs.WrappedIdTakesOver | server/streamer/streamer.go:45-50 | When the counter comes round, an earlier stream's id leads to the new stream |
| StreamIDs.WrapIsReachable | server/streamer/streamer.go:45-50 | There is a run of 2^64 + 1 Stream calls in which the first stream, never stopped, loses its id to the last |
| StreamIDs.Streamer.NextID | server/streamer/streamer.go:122-128 | Adds one modulo 2^64 and prints it |
| StreamIDs.Streamer.Stream | server/streamer/streamer.go:45-50 | Registers the new pair under the new id as the registry step says |
| StreamIDs.Streamer.LoadStream | server/streamer/streamer.go:114-120 | Finds exactly the registered ids |
| StreamIDs.Streamer.Stop | server/streamer/streamer.go:97-112 | Closes the stream's done channel and schedules its delete; an unknown id changes nothing |
| StreamIDs.Streamer.DeleteLater | server/streamer/streamer.go:105-111 | Removes exactly that id |
| OutputCopies.OutputIsNeverInterleaved | client/connection/stream_handler.go:44-72 | At every step, failing copies included, the writer of stdout and that of stderr each hold the parts of their own copies unmixed, in lock order |
| OutputCopies.CopyWasStarted | client/connection/stream_handler.go:44-72 | A copy has a stream and a reader exactly if a call started it with them |
| OutputCopies.CopyPhaseIff | client/connection/stream_handler.go:61-71 | A copy waits, has counted down or has finished exactly as it has locked, counted down and unlocked, and has written as many chunks as it was stepped over |
| OutputCopies.CopyCanFinish | client/connection/stream_handler.go:61-71 | For every stream and reader: a run that writes the whole reader and brings the wait group back to zero |
| OutputCopies.CopiesNeverGetStuck | client/connection/stream_handler.go:61-71 | A copy of a stream can go on exactly until all of that stream have finished, whatever the other stream does: the mutex always comes back |
| OutputCopies.WaitGroupZeroMeansComplete | client/connection/stream_handler.go:44-72 | When the wait group of both streams is at zero with no failed copy, each writer holds all its readers whole, each exactly once |
| ProcessInput.ProcessStream.Write | client/connection/process_stream.go:18-26 | Sends one stdin payload with the data, even if empty; reports the full length and an error exactly if the send failed |
| ProcessInput.ProcessStream.Close | client/connection/process_stream.go:28-34 | Sends one stdin payload without data, with an error exactly if the send failed |
| ProcessInput.ProcessStream.SetTTY | client/connection/process_stream.go:36-41 | Sends one terminal payload, with an error exactly if the send failed |
| ProcessInput.ProcessStream.Signal | client/connection/process_stream.go:43-48 | Sends one signal payload, with an error exactly if the send failed |
| ProcessInput.ProcessStream.StreamIn | client/connection/stream_handler.go:27-42 | Sends the chunks the reader yields until a send fails, and Close exactly if neither reading nor sending failed |
| ProcessInput.StreamInput | server/request_handling.go:1011-1074 | The loop does what `Serve` says for every payload sequence and every process that stops reading within some write, by closing its end or not; it closes the connection channel exactly if decoding failed |
| ProcessInput.CallsTakeEffect | server/request_handling.go:1011-1074 | For every call sequence exactly the calls before the first Close, unknown signal or write not read whole take effect, as meant and in order, and which of these it was says how the loop ends |
| ProcessInput.StdinArrivesWhole | client/connection/stream_handler.go:27-42 | For every interleaving with terminal changes and known signals, the process reads exactly the sent chunks that it takes whole and its part of the next, and a clean end of file after them exactly if it took all and Close was sent |
| ProcessInput.StreamedInputArrives | client/connection/stream_handler.go:27-42 | For every reader's chunks and failure and every number of messages the connection takes: a process that reads everything reads exactly the chunks that were sent, and a clean end of file exactly if reading did not fail and all chunks and the close were taken |
| ProcessInput.StreamedAloneArrives | client/connection/stream_handler.go:27-42 | The same for exactly the payloads that `StreamIn` sends |
| ProcessInput.PayloadsTakeEffect | server/request_handling.go:1011-1074 | For any payloads, by their fields: the server resizes, feeds or signals for each in order, up to the first that closes stdin or is not read whole, and that one says how the loop ends |
| ProcessInput.ControlReachesProcessIff | server/request_handling.go:1021-1055 | A call that does not end the input takes effect exactly if no earlier call did and the process takes every write up to it |
| ProcessInput.KillIsLostAfter | server/request_handling.go:1028-1040 | A kill after Close, or after a write that the process does not read whole, has no effect |
| ServerProcess.StdinEndsForACause | server/request_handling.go:1011-1144 | Over all interleavings stdin ends cleanly only after a client close, unknown payload or unknown signal, or the process's Wait; with an error only after a lost connection |
| ServerProcess.StopOrLossBreaksStdin | server/request_handling.go:1013-1019 | If no result was reported and the client did not close stdin, a finished input loop has closed stdin with an error, unless the process closed it itself |
| ServerProcess.InputStepsAreBounded | server/request_handling.go:800-819 | Once the handler has closed the connection, the input loop takes at most two steps per buffered payload and three more |
| ServerProcess.InputGoesOnIff | server/request_handling.go:1011-1074 | The input loop has a step of its own to take exactly until it is over, or waits for the process to read, or for the client on an open connection |
| ServerProcess.StoppedInputEnds | server/request_handling.go:800-819 | So after the handler has returned the loop ends within that bound or waits for a process that neither reads nor closes its stdin; if no result was reported, with the error close unless the client or the process had closed stdin |
| ServerProcess.MainLoopEndsForACause | server/request_handling.go:1098-1143 | streamProcess ends with a report and stdin closed, or because of a server stop or lost connection |
| ServerProcess.ListensIff | server/request_handling.go:1011-1074 | In every run the input loop still listens exactly if no payload closed stdin, decoding did not fail and no write to stdin failed |
| ServerProcess.NothingIsDecodedAfterTheEnd | server/request_handling.go:1013-1074 | After one of these nothing is decoded any more |
| ServerProcess.PendingWriteHoldsBack | server/request_handling.go:1036-1040 | Until a write to stdin returns, nothing behind it is decoded |
| ServerProcess.FailedWriteLosesControls | server/request_handling.go:1036-1040 | For every data: a run in which the process has closed its stdin, the write fails, and no further payload can be decoded |
| ServerProcess.StdinDataInOrder | server/request_handling.go:1028-1040 | The process has read exactly the decoded data, in order, except for an end of the last piece that a write under way has still to hand over or a failed write never did |
| ServerProcess.ConnCloseChClosedOnce | server/request_handling.go:1011-1019 | `connCloseCh` is closed at most once |
| ServerProcess.FirstCloseWins | server/request_handling.go:1011-1144 | How stdin ended never changes afterwards |
| ServerProcess.ReportedResultIsReal | server/request_handling.go:1080-1130 | At most one result is sent, a status or an error but not both, and it is what Wait returned |
| ServerHistory.ResultIsSentIff | server/request_handling.go:1101-1124 | In every run the client has been sent a message exactly if a report went out, one message for this process with the status or the error that Wait returned and not both |
| ServerHistory.MainPhaseIff | server/request_handling.go:1098-1143 | Where streamProcess is, exactly by the branches it has taken |
| ServerHistory.MainGoesOnIff | server/request_handling.go:1098-1143 | It has a step to take exactly after a report, or while it waits and Wait has returned, the server stops or the connection is lost |
| ServerHistory.ServerStateIff | server/request_handling.go:800-819 | Stopping, the closed read end and the closed connection, exactly by their steps |
| ServerHistory.PipeCloseIff | server/request_handling.go:1011-1144 | The pipe is closed exactly by the first step that closes it, and as that step does |
| ServerHistory.InputPhaseIff | server/request_handling.go:1011-1074 | Where an input loop that no longer listens is, exactly by the steps it has taken |
| ServerHistory.ProcessCanFinish | server/request_handling.go:1011-1144 | For every input and every result: a run in which the process reads all of it and a clean end of file and the client is sent the result |
| ServerHistory.StopCanBreakStdin | server/request_handling.go:1132-1137 | For every input: a run in which a server stop breaks stdin off after it |
| ServerHistory.LossCanBreakStdin | server/request_handling.go:1013-1019 | For every input: a run in which the loss of the connection does |
| ClientProcess.Wait | client/connection/stream_handler.go:74-96 | The decode loop returns, by payload fields, the error of the first payload with an answer, else its exit status, and the decode failure exactly if none has an answer |
| ClientProcess.FirstAnswerIsReturned | client/connection/stream_handler.go:74-96 | The same of the function that the transition system uses |
| ClientProcess.ClientStatusIsReal | client/connection/stream_handler.go:74-96 | From any received prefix of any server run, a status without error is one the backend's Wait returned |
| ClientProcess.WaiterStatusIsReal | client/connection/connection.go:279-290 | The same for what callers of Wait get, over every pair of client and server runs |
| ClientProcess.WaiterGetsReportedResult | client/connection/connection.go:279-290 | In the other direction, over every pair of runs: where the streams were attached, a waiter gets the status or error that the backend's Wait returned and the server reported, or the decode failure if the report did not arrive |
| ClientProcess.WaitersAgree | client/connection/process.go:31-59 | `exited` is called at most once and all waiters ever get the same result |
| ClientProcess.ResultIsWaitResult | client/connection/connection.go:279-290 | The process's result is what the wait loop computes from the payloads received |
| ClientProcess.CopyPhaseIff | client/connection/connection.go:237-276 | A copy runs exactly from the attaching of its stream to its own end |
| ClientProcess.ResultIsSetIff | client/connection/connection.go:237-292 | The result is set exactly by the joining of the copies or a failed attach, and a waiter has it exactly once it has returned |
| ClientProcess.ClientNeverGetsStuck | client/connection/connection.go:237-292 | The client goes on exactly while it has no result or a copy runs, and with a result every waiter can return |
| ClientProcess.WaiterCanGetResult | client/connection/connection.go:237-292 | For every answer and waiter: a run that attaches, receives, joins and returns it |
| ClientProcess.WaitersReturnAfterCopies | client/connection/connection.go:237-292 | When all wanted streams were attached, Wait returns only after all output copies |
| ClientProcess.ResultBeforeCopiesIff | client/connection/connection.go:266-276 | The result is set during a copy exactly if attaching the second stream fails then |
| ClientProcess.FailedAttachDoesNotWait | client/connection/connection.go:266-276 | Such a run exists |
| ClientProcess.Process.Exited | client/connection/process.go:51-59 | Sets the outcome to the given status or error |
| ClientProcess.Process.Result | client/connection/process.go:31-41 | Returns the outcome |
| IPRanges.LastIP | net_out_rule.go:71-81 | The byte loop computes the last address, and panics exactly if the mask is longer than the address |
| IPRanges.RangeFromNetExact | net_out_rule.go:55-58 | For every length: the addresses numerically in the range are those of the network exactly if the mask is a prefix and the address has no host bits |
| IPRanges.RangeFromNetSize | net_out_rule.go:55-58 | Such a range, as a set of addresses, has two to the number of host bits |
| IPRanges.MixedFormsNeverMatch | net_out_rule.go:55-81 | For every IPv4 address in 16-byte form and every 4-byte mask, the range and the network differ as sets of 16-byte addresses |
| HandleList.HandlesSurviveIff | client/connection/connection.go:551-567 | Split after join gives the list back exactly if it is comma-free and not one empty handle |
| HandleList.QuerySurvives | server/request_handling.go:1146-1152 | Join after split gives back every query |

## Left out

- HTTP routing, hijacking, sockets, logging and trace headers: plumbing over libraries whose code is not part of this model.
- JSON text: a payload is taken to arrive as it was sent, which for stdin data needs valid UTF-8.
- Connection tracking and Stop of the server: they depend on the order in which net/http reports connection states.
- Error marshalling, lookups, limits, metrics, properties and the default grace time of handleCreate: forwarding and short case splits that would only add easy members.
- Detonating at most once and retrying a failed reap: the code does not provide them.
- Closing a chanWriter, a second Stop of one stream, and a channel without a buffer: the server does none of them.
- What libraries add to an error text, such as the cause of a failed decode or hijack.
- Condition variables, mutexes and wait groups are steps of the transition systems, not objects; the classes hold what is done while a lock is held.
- ChanWriters.Pass: other goroutines act before its select, not within it; the transition system covers the rest.
- ChanWriters.Serve: what other goroutines do comes in between passes of the loop, as a schedule; interleaving within a pass is covered by the transition system.
- Bombermen.Bomberman.ManageBombs: runs over the signals received so far, since the source's loop never ends.
- DestroyGuard.Guard.HandleDestroy: describes a request that nobody interrupts; interleaved requests are the subject of the transition system.
- DestroyGuard.Guard.ReapContainer: likewise.
- ClientProcess.Wait: the decode loop alone; its wait for the output copies is a step of the transition system.
- ClientProcess.Process.Result: blocking on the condition variable is a step of the transition system, so the method starts when the process is done.
