# The DPA transaction engine of clibdpa, verified

clibdpa sends DPA requests to an IQRF coordinator and waits for the confirmations and responses that belong
to them. Its engine is shared by three kinds of threads: users call `executeDpaTransaction`, `get` and `abort`;
one worker of a task queue runs `execute`; one receive thread runs `ResponseMessageHandler` and
`processReceivedMessage`. Every shared field sits behind a mutex, so the model takes each lock-protected section
as one atomic step and each wait as a point where the others may act. How a wait ends (notified, spurious or
timed out) is free, as section 30.5.1 of ISO/IEC 14882:2011 allows.

The project has two layers.

- *Machines* on values: `TransactionMachine` (one transaction), `TransactionGetters` (with any number of threads
  in `get`), `TaskQueueMachine` (the queue, its worker statement by statement), `HandlerMachine` (all together,
  with the receive thread and the users). A run is any sequence of enabled steps; the main results are about
  every run.
- *Objects* that change their fields in place, as the originals do: `DpaMessage` over its 64-byte buffer,
  `DpaTransactionResult2`, `DpaTransaction2`, `TaskQueue<T>`, `DpaHandler2`. The methods of the transaction and
  the queue are proved against their machines' steps. The three blocking methods, `execute`, `get` and the queue's
  `worker`, keep their loops; what the other threads do at each release point is an argument, so a call with any
  argument is one interleaving. `IterateIsRun`, `GetIsRun` and `PlayIsRun` show that every such execution is a run
  of the machine. The handler object stands beside `HandlerMachine`: its contracts are in terms of its transactions
  and its queue, and the lemmas of `HandlerTasks` show that the machine has runs that do exactly that to them.

| file | contents |
|---|---|
| MachineInts, Wrappers | fixed-width integers, options |
| DpaMessages, TransactionResults, Timing, Routing | messages, results, estimates and time-outs, the way of a frame |
| TransactionMachine, TransactionRuns, TransactionOutcomes, TransactionDurations, TransactionGetters | one transaction: steps, closed forms over the log, outcome, waiting, ownership |
| Transactions | the transaction object |
| TaskQueueMachine, TaskQueueRuns, TaskQueues | the queue: steps, results, the object |
| HandlerMachine, HandlerInvariant, HandlerResults, HandlerRequests, HandlerFrames | the handler: steps, invariant, safety |
| HandlerHangs, HandlerProgress, HandlerFates, HandlerService | the handler: what holds up the worker, who is served |
| HandlerShutdown, HandlerWitnesses | the handler: stop and destructor, runs that depart from the design |
| HandlerTasks, Handlers | the handler's callbacks as runs, the handler object |

## How the outcome is stated

The state of a waiting transaction is read off its log. The *standing* (`StandingOf`) is a fold over the log, but
`LastCounting` and `LastCountingDecides` show that its last event that counts (the start, an abort, an accepted
message) decides it, whatever the durations, wake-ups and rejected frames around it; only a response also looks
back, at whether it is the first that counts after the send. The messages on record are the last accepted ones
(`Recorded`), and the duration of the next wait is `DurationOf`. `Decision` says what a wake-up does in a standing.
The theorems prove that the engine, with all its fields, does exactly that.

What the functions in these statements compute is itself told in bytes and numbers: `CheckByBytes`, `RouteByBytes`,
`DirectionByBytes`, `HeaderByBytes`, `InfiniteByBytes`, `DurationsByBytes`, `EstimateExact`, `NewIsFresh`,
`EntryIsPushed`.

## Where the code departs from its documentation

- `abort` is documented to abort immediately (include/IDpaTransaction2.h:67-68). An abort before `execute` takes
  the mutex is overwritten, and so is one that is followed by an accepted message before the worker wakes up.
  `AbortWorksIff` has the exact condition, `AbortBeforeStartIsLost` a lost abort.
- The handler's destructor aborts the pending transaction, then stops the queue, then joins the worker
  (Dpa/DpaHandler2.cpp:74-82). It does not always come back. Its abort can come before `execute`, and is lost then
  (`LostShutdown`); and the worker runs on between the abort and the stop, so it can start the next transaction in
  the queue, which nobody aborts (`OvertakenShutdown`). `DestructorEndsIff` has the exact condition at the call,
  over every run between the two critical sections and after them: no transaction, in flight or queued, can hang in
  spite of the abort. `UninterruptedIff` is the case in which nothing happens between the two. By `HoldsUpForEver`
  a destructor that is held up never comes back, unless a response arrives or somebody else aborts.
- An infinite transaction that gets no response and no abort holds up everybody behind it. `SurelyServedIff` says
  exactly who is served whatever the order of what is still to happen (the worker's steps, a delivery that the
  receive thread already carries, expiring waits), and `CanBeServedIff` who may be. The two differ only where a
  message under way races with the worker: a response that may come before `execute` and be forgotten, or a
  confirmation that may undo a response or an abort.
- A frame that came before its request was sent can be taken for the answer to it (`StaleAnswer`). `AnswerIsFresh`
  shows that this can only be the one frame that the receive thread carries at the send.
- `get` is commented to report a transaction that was not started in time (Dpa/DpaTransaction2.cpp:44-45,
  178-188). The report asks for a finite transaction inside the loop over infinite ones, so it is dead: no getter
  comes back before the end (`OneOwner`).
- Time-out 0 is said to be allowed for Discovery, SmartConnect, Authorize and FRC only (Dpa/DpaTransaction2.cpp:94).
  It also waits forever for every coordinator-addressed request to another peripheral (`InfiniteByBytes`).
- A frame that is delivered between the assignment of the pending transaction and the start of its execution is
  accepted, and stays on record (`ResultFollowsLog` holds for events before the start, too).
- A response of 4 to 6 bytes has no response code, but counts as one with code 0 (`RouteByBytes`). A message of
  3 bytes has no command, but its direction is read from the fourth byte (`CopyKeepsDirectionIff`).
- The data length of a 7-byte response is -1, the mark of an estimate from a confirmation, so such a response can
  lengthen a short wait. `NeverLengthensIff` has the exact condition; the handler's default time-outs meet it.
- A bare transaction with default time-out 0 keeps its mutex and spins for ever, unless a message came before its
  start (`SpinsIff`); the handler's minimal time-out rules that out (`NoInterfaceErrorNoBusyLoop`).
- Stopping the queue abandons what is still in it: `get` never returns for these transactions (`StopAbandons`).
  What a stopped handler surely completes is exactly what was taken out and may not hang (`StoppedServesIff`).

## Model

| member | source | states |
|---|---|---|
| DpaMessages.CopyKeepsDirectionIff | include/DpaMessage.h:118-175 | a deep copy has the direction of its original if and only if the original is not a 3-byte message with a stale response flag |
| DpaMessages.HeaderByBytes | include/DpaMessage.h:236-266 | which bytes the address, the coordinator and the broadcast test read |
| DpaMessages.DirectionByBytes | include/DpaMessage.h:164-175 | the exact lengths and bytes of a response, a confirmation and a request |
| DpaMessages.CopyIsStable | include/DpaMessage.h:118-145 | a copy has the same bytes on the wire and zeros behind them, and copying again changes nothing |
| DpaMessages.DpaMessage.constructor | include/DpaMessage.h:97-99 | a new message is empty and zeroed |
| DpaMessages.DpaMessage.CopyOf | include/DpaMessage.h:118-121 | the copy constructor makes an independent deep copy of the bytes in use |
| DpaMessages.DpaMessage.Assign | include/DpaMessage.h:134-145 | assignment makes an independent deep copy, a self-assignment nothing |
| DpaMessages.DpaMessage.DataToBuffer | include/DpaMessage.h:204-216 | the first bytes are stored, the rest is left as it was; nothing changes for length 0 and for too long data |
| DpaMessages.DpaMessage.FillFromResponse | include/DpaMessage.h:187-192 | as above, with length 0 refused |
| DpaMessages.DpaMessage.SetLength | include/DpaMessage.h:230-234 | accepts exactly 1 to 64 and changes only the length |
| TransactionResults.FinalCode | Dpa/DpaTransactionResult2.cpp:32-40 | the final code is the engine's verdict if that is an error, else the response's code |
| TransactionResults.ReadsEither | Dpa/DpaTransactionResult2.cpp:32-40 | the code that is read, and that a response shows through a verdict of success in whatever order they were recorded |
| TransactionResults.DpaTransactionResult2.constructor | Dpa/DpaTransactionResult2.cpp:26-30 | a new result holds the copied request, no messages, and reads as aborted |
| TransactionResults.DpaTransactionResult2.GetErrorCode | Dpa/DpaTransactionResult2.cpp:32-40 | the error code, or the response code if there is no error |
| TransactionResults.DpaTransactionResult2.SetConfirmation | Dpa/DpaTransactionResult2.cpp:92-97 | records the confirmation and nothing else |
| TransactionResults.DpaTransactionResult2.SetResponse | Dpa/DpaTransactionResult2.cpp:99-110 | records the response and its code |
| TransactionResults.DpaTransactionResult2.SetErrorCode | Dpa/DpaTransactionResult2.cpp:112-118 | a verdict of 0 gives way to a response code that is not 0 |
| Timing.EstimateRange | Dpa/DpaTransaction2.cpp:472-566 | standard estimates lie in 80..668200 ms, low-power ones in 120..681000 ms |
| Timing.EstimateExact | Dpa/DpaTransaction2.cpp:472-566 | every estimate in numbers: the slots by mode, version and data length, the safety time |
| Timing.EstimateMonotone | Dpa/DpaTransaction2.cpp:472-566 | estimates grow with both hop counts and with the data length |
| Timing.EstimateOrder | Dpa/DpaTransaction2.cpp:472-566 | low power needs at least as long as standard, and 4.03D at most as long as any other version |
| Timing.VersionMattersIff | Dpa/DpaTransaction2.cpp:490-507 | the version changes an estimate exactly for these data lengths |
| Timing.ResponseCorrectionLowers | Dpa/DpaTransaction2.cpp:480-511 | the correction by the response never raises the estimate of the confirmation |
| Timing.TimeSlotMonotoneIff | Dpa/DpaTransaction2.cpp:477-486 | a longer time slot gives a longer estimate except when it leaves slot 20, and then exactly under this condition |
| Timing.TimeSlotDropsAtTwenty | Dpa/DpaTransaction2.cpp:481-485 | from slot 20 to 21 the estimate can drop |
| Timing.CorrectTimeouts | Dpa/DpaTransaction2.cpp:69-155 | the constructor's checks and corrections compute the closed forms: who waits forever, the user's time-out, the first duration |
| Timing.InfiniteByBytes | Dpa/DpaTransaction2.cpp:69-115 | from the bytes of the request: exactly who waits forever, for a negative, a zero and a positive time-out |
| Timing.DurationsByBytes | Dpa/DpaTransaction2.cpp:117-155 | from the bytes of the request: the user's time-out and the first duration in numbers |
| Timing.TimeoutLaw | Dpa/DpaTransaction2.cpp:69-155 | with a positive default: both durations at least min(default, 11000), a longer wish is kept, infinite only for coordinator requests |
| Routing.RouteByBytes | Dpa/DpaHandler2.cpp:85-125 | from the bytes alone: which frames are dropped, which reach the pending transaction, that the rest is asynchronous, and the message that is passed on in both cases |
| TransactionRuns.StateFollowsLog | Dpa/DpaTransaction2.cpp:214-467 | until the end, the state is the one the last counting event of the log stands for |
| TransactionRuns.ResultFollowsLog | Dpa/DpaTransaction2.cpp:346-461 | until the end, the result holds the last accepted confirmation and response, with the response's code |
| TransactionRuns.WakeDecides | Dpa/DpaTransaction2.cpp:258-343 | a wake-up ends the transaction if and only if the standing says so, with the code that standing and last response determine |
| TransactionRuns.NewIsFresh | Dpa/DpaTransaction2.cpp:51-157 | what the constructor makes of each of its arguments |
| TransactionRuns.CheckByBytes | Dpa/DpaTransaction2.cpp:360-378 | from the bytes of message and request: exactly which messages are accepted, and which refusal comes first |
| TransactionOutcomes.FinishMoment | Dpa/DpaTransaction2.cpp:333-343 | the end is one wake-up, and there is only one |
| TransactionOutcomes.Frozen | Dpa/DpaTransaction2.cpp:163-205 | after the end only the state and the ownership of the result change |
| TransactionOutcomes.Outcome | Dpa/DpaTransaction2.cpp:208-467 | main theorem: code, messages and state of a finished run are those of its log up to the deciding wake-up, and stay so |
| TransactionOutcomes.OrdinaryOutcome | Dpa/DpaTransaction2.cpp:273-343 | finite request to an ordinary node: nothing or a confirmation last gives time-out, a response its code, an abort aborted |
| TransactionOutcomes.SuccessIff | Dpa/DpaTransaction2.cpp:273-343 | code 0 if and only if a response with code 0 decided, or a waited-out broadcast confirmation without another response code |
| TransactionOutcomes.LastCounting | Dpa/DpaTransaction2.cpp:214-467 | a started log has a last event that counts |
| TransactionOutcomes.LastCountingDecides | Dpa/DpaTransaction2.cpp:214-467 | that event decides the standing, whatever follows that does not count |
| TransactionOutcomes.UnstartedIff | Dpa/DpaTransaction2.cpp:214-256 | there is a standing if and only if there was a start |
| TransactionOutcomes.SuccessIsSound | Dpa/DpaTransaction2.cpp:366-461 | an end with code 0 rests on a message that came after the start, matches address, peripheral and command and is on record |
| TransactionOutcomes.AbortWorksIff | Dpa/DpaTransaction2.cpp:163-167 | an abort ends the transaction if and only if it was started before and nothing was accepted after it |
| TransactionOutcomes.AbortBeforeStartIsLost | Dpa/DpaTransaction2.cpp:163-230 | a run in which an abort is lost |
| TransactionOutcomes.OneStart | Dpa/DpaTransaction2.cpp:214-249 | a run has one start, and one without an error never counts as failed |
| TransactionOutcomes.InfiniteIsPatient | Dpa/DpaTransaction2.cpp:276-292 | an infinite transaction stays in four states, and in two of them after its end; no expiry ends it, and it never times out |
| TransactionOutcomes.InfiniteWaitsForEver | Dpa/DpaTransaction2.cpp:276-292 | without a message or an abort no number of wake-ups ends an infinite transaction |
| TransactionDurations.DurationFollowsLog | Dpa/DpaTransaction2.cpp:391-449 | hops, time slot and duration in closed form over the log, byte for byte through the signed fields |
| TransactionDurations.DurationsAreBounded | Dpa/DpaTransaction2.cpp:258-271 | no wait is longer than the first duration, the user's time-out and 681000 ms |
| TransactionDurations.ExpiryEnds | Dpa/DpaTransaction2.cpp:274-313 | in a finite transaction an expired wait is the last one |
| TransactionDurations.IterationsAreBounded | Dpa/DpaTransaction2.cpp:258-333 | n early wake-ups allow n + 1 iterations and n + 1 times the longest wait |
| TransactionDurations.NoEmptyIteration | Dpa/DpaTransaction2.cpp:237-271 | every iteration waits at least 80 ms or ends the transaction at once |
| TransactionDurations.HandlerDurations | Dpa/DpaHandler2.cpp:152-159 | the handler's default time-outs keep first duration and user time-out at 200 ms or more |
| TransactionDurations.SpinsForever | Dpa/DpaTransaction2.cpp:258-289 | a loop without a wait and without an end never lets another event happen |
| TransactionDurations.SpinsIff | Dpa/DpaTransaction2.cpp:121-152 | which constructor arguments, and which messages accepted before the start, lead to that loop |
| TransactionDurations.FirstResponseNeverLengthens | Dpa/DpaTransaction2.cpp:430-449 | the first accepted response leaves at most the duration in force |
| TransactionDurations.FirstDurationCovers | Dpa/DpaTransaction2.cpp:477-511 | the least first duration for that: 100 ms standard, 150 ms low power |
| TransactionDurations.ShortDurationIsLengthened | Dpa/DpaTransaction2.cpp:437-446 | below it, any matching 7-byte response that comes before the start lengthens the wait |
| TransactionDurations.NeverLengthensIff | Dpa/DpaTransaction2.cpp:430-449 | over all runs: the first response never lengthens the wait if and only if the first duration covers the estimate, the transaction is infinite, or nothing can match its command |
| TransactionGetters.SessionIsRun | Dpa/DpaTransaction2.cpp:170-205 | threads in get do nothing to a transaction but take its result |
| TransactionGetters.OneOwner | Dpa/DpaTransaction2.cpp:170-205 | nobody returns before the end; then the final result has exactly one owner for ever |
| TransactionGetters.NoUseAfterMove | Dpa/DpaTransaction2.cpp:336-366 | no step that uses the result pointer comes after the move |
| Transactions.IterateIsRun | Dpa/DpaTransaction2.cpp:258-333 | every execution of the loop is a run |
| Transactions.ScheduleIsFollowed | Dpa/DpaTransaction2.cpp:258-333 | that run is what the schedule asks for, in order, with nothing left out before the end |
| Transactions.NobodyElseActs | Dpa/DpaTransaction2.cpp:264-271 | without a wait nobody else gets the mutex |
| Transactions.DpaTransaction2.constructor | Dpa/DpaTransaction2.cpp:51-157 | builds the machine's initial transaction |
| Transactions.DpaTransaction2.AbortTransaction | Dpa/DpaTransaction2.cpp:163-167 | sets the state, and only the state |
| Transactions.DpaTransaction2.EstimatedTime | Dpa/DpaTransaction2.cpp:399-404 | the estimate for the hops on record, within its range |
| Transactions.DpaTransaction2.ProcessReceivedMessage | Dpa/DpaTransaction2.cpp:346-467 | checks in order, then confirmation or response, as the machine's step |
| Transactions.DpaTransaction2.ProcessConfirmation | Dpa/DpaTransaction2.cpp:383-421 | state, stored hops, duration and record after a confirmation |
| Transactions.DpaTransaction2.ProcessResponse | Dpa/DpaTransaction2.cpp:424-461 | state, duration and record after a response |
| Transactions.DpaTransaction2.AdoptEstimate | Dpa/DpaTransaction2.cpp:406-415 | the longer of estimate and user's time-out |
| Transactions.DpaTransaction2.Enter | Dpa/DpaTransaction2.cpp:217-235 | execute() up to the call of the sender |
| Transactions.DpaTransaction2.AfterSend | Dpa/DpaTransaction2.cpp:237-256 | what a sender that throws changes |
| Transactions.DpaTransaction2.Begin | Dpa/DpaTransaction2.cpp:214-256 | execute() up to its loop |
| Transactions.DpaTransaction2.Loop | Dpa/DpaTransaction2.cpp:258-343 | the loop and the end, for every schedule |
| Transactions.DpaTransaction2.EvaluateState | Dpa/DpaTransaction2.cpp:273-331 | the switch finishes exactly when the machine does, with the same state and code |
| Transactions.DpaTransaction2.IterateOnce | Dpa/DpaTransaction2.cpp:258-333 | one iteration, with the others' critical sections during its wait |
| Transactions.DpaTransaction2.Execute | Dpa/DpaTransaction2.cpp:214-343 | the whole of execute() ends in the state that the schedule leads to |
| Transactions.GetIsRun | Dpa/DpaTransaction2.cpp:170-205 | whatever happens while get() waits, it comes back only after the end, and only takes the result |
| Transactions.GetReturns | Dpa/DpaTransaction2.cpp:170-205 | get() comes back as soon as it finds the end, else it waits through; it returns the result of that moment |
| Transactions.GetObtains | Dpa/DpaTransaction2.cpp:170-205 | over every run: it returns the result of the end, or null if and only if somebody else took that |
| Transactions.DpaTransaction2.Get | Dpa/DpaTransaction2.cpp:170-205 | both waits of get(); it returns the transaction's own result object, unless somebody else took it, and leaves a null pointer |
| Transactions.DpaTransaction2.AwaitEnd | Dpa/DpaTransaction2.cpp:197-200 | the second wait: until the end, whatever times out |
| Transactions.DpaTransaction2.AwaitStarted | Dpa/DpaTransaction2.cpp:178-193 | the first wait: only for infinite transactions, until the start or the time-out |
| Transactions.DpaTransaction2.Happen | Dpa/DpaTransaction2.cpp:163-467 | each critical section is the machine's step of that name |
| Transactions.DpaTransaction2.End | Dpa/DpaTransaction2.cpp:335-343 | the code is recorded and the end latched |
| Transactions.DpaTransaction2.MoveResult | Dpa/DpaTransaction2.cpp:200-204 | get() moves the result out unchanged and leaves a null pointer |
| TaskQueueRuns.InvHolds | include/TaskQueue.h:113-139 | what holds in every reachable state of the queue |
| TaskQueueRuns.FifoConservation | include/TaskQueue.h:73-139 | pushed = done, then in flight, then queued, over all interleavings; the lock is never misused |
| TaskQueueRuns.AloneMakesProgress | include/TaskQueue.h:113-139 | a worker that is not at rest can move, or is owed a notification, and gets closer to rest |
| TaskQueueRuns.DrainsEverything | include/TaskQueue.h:73-139 | no lost wake-up: left alone, the worker processes all that was ever pushed, in order |
| TaskQueueRuns.NothingPoppedAfterStop | include/TaskQueue.h:89-97 | after a stop at most the task already popped still runs |
| TaskQueueRuns.StoppedWorkerExits | include/TaskQueue.h:54-65 | a stopped worker exits from every reachable state and leaves the lock free |
| TaskQueueRuns.ShutdownCompletes | include/TaskQueue.h:54-65 | every run that ends in a stop can be completed to the join without losing track of a task |
| TaskQueues.PlayIsRun | include/TaskQueue.h:113-139 | every execution of the worker's loops is a run |
| TaskQueues.PlayGoesOn | include/TaskQueue.h:113-139 | in it the others do all they were asked to, in order, and it ends at the exit or where they may act again |
| TaskQueues.TaskQueue.constructor | include/TaskQueue.h:43-49 | the initial queue |
| TaskQueues.TaskQueue.PushToQueue | include/TaskQueue.h:73-84 | appends, raises the flag, notifies, returns the new size |
| TaskQueues.TaskQueue.StopQueue | include/TaskQueue.h:89-97 | lowers the run flag, raises the flag, notifies |
| TaskQueues.TaskQueue.Size | include/TaskQueue.h:101-109 | the number of queued tasks |
| TaskQueues.TaskQueue.AwaitTask | include/TaskQueue.h:119-123 | lock, wait with predicate, reset of the flag |
| TaskQueues.TaskQueue.ProcessTasks | include/TaskQueue.h:125-137 | the inner loop |
| TaskQueues.TaskQueue.Worker | include/TaskQueue.h:113-139 | the nested loops end in the state that the others' acts lead to, and report what was processed |
| HandlerInvariant.InvStep | Dpa/DpaHandler2.cpp:34-277 | every step of every thread keeps the handler's invariant |
| HandlerInvariant.StepTouchesOne | Dpa/DpaHandler2.cpp:43-145 | every step changes at most one transaction, by one of its own critical sections |
| HandlerInvariant.TaskNumber | Dpa/DpaHandler2.cpp:43-53 | the running transaction is the oldest that is not done, and all younger ones are queued |
| HandlerResults.SerialWire | Dpa/DpaHandler2.cpp:43-53 | sends follow the order of the pushes, each transaction at most once, and a transaction finishes before the next one is sent |
| HandlerResults.LogIsTrue | Dpa/DpaTransaction2.cpp:214-343 | a transaction is in the log of sends if and only if its request was handed to the sender, and logged codes are those of the results |
| HandlerResults.JudgedByYounger | Dpa/DpaHandler2.cpp:43-53 | the queue size a transaction is judged by is the number of younger ones |
| HandlerResults.Overload | Dpa/DpaHandler2.cpp:38-53 | of a backlog worked off without pushes exactly the oldest n - 16 are not sent and end with the code for a full queue; the others are sent, or end with their own error |
| HandlerResults.RejectionIsEarned | Dpa/DpaHandler2.cpp:46-52 | under concurrent pushes: a rejected transaction has 16 younger ones, is never sent and ends with the code for a full queue |
| HandlerResults.AcceptanceIsKept | Dpa/DpaHandler2.cpp:46-48 | any other is sent, or ends with its own error |
| HandlerRequests.SettingsFollowLog | Dpa/DpaHandler2.cpp:152-184 | the settings are those made last, with time-outs below 200 raised |
| HandlerRequests.EntryIsPushed | Dpa/DpaHandler2.cpp:136-145 | over every run: the n-th push makes the n-th transaction, of its own request, error and time-out, under the settings made last |
| HandlerRequests.UserIsHeard | Dpa/DpaHandler2.cpp:127-145 | over every run, from the push: its request is sent byte for byte, or nothing is and the transaction ends with the error asked for, or -2 with 16 younger ones behind it |
| HandlerFrames.FramesArePartitioned | Dpa/DpaHandler2.cpp:85-125 | over every run, from the bytes of the frames: asynchronous frames were all given to the handler for them, in order and byte for byte; each other routed frame was, or is about to be, given once to the one transaction taken up last when it came |
| HandlerFrames.DeliveryIsContained | Dpa/DpaTransaction2.cpp:346-378 | it changes only the transaction it was routed to, and not even that if it is finished or does not match; no response-is-expected error |
| HandlerFrames.ResponseCodesAreSynchronous | Dpa/DpaHandler2.cpp:111-116 | recorded response codes have bit 7 clear |
| HandlerFrames.FramesSince | Dpa/DpaHandler2.cpp:85-125 | the same account of frames between any two states of a run |
| HandlerFrames.SuccessNeedsFrame | Dpa/DpaHandler2.cpp:85-145 | a transaction that ends with 0 was sent, and after that a matching frame was delivered to it |
| HandlerFrames.AnswerIsFresh | Dpa/DpaHandler2.cpp:85-125 | the frame behind a code 0 came after any given moment before the start, or is the one that was being carried at that moment |
| HandlerFrames.NoInterfaceErrorNoBusyLoop | Dpa/DpaHandler2.cpp:251-261 | whatever std::exception the channel throws: no interface error, and no empty iteration |
| HandlerProgress.RestIsReached | include/TaskQueue.h:113-139 | from every state the handler can come to rest without users and new frames |
| HandlerFates.RunKeepsFate | Dpa/DpaTransaction2.cpp:258-333 | whether a transaction will hang, once decided, is the same after every run of internal steps |
| HandlerService.SurelyServedIff | Dpa/DpaHandler2.cpp:43-145 | from any state, whatever the order of internal steps: a transaction finishes if and only if it is still taken out of the queue and neither it nor an older one may hang |
| HandlerService.CanBeServedIff | Dpa/DpaHandler2.cpp:43-145 | some order finishes it if and only if the same holds but for a race that it may win |
| HandlerService.EveryoneIsServed | Dpa/DpaHandler2.cpp:43-145 | from every reachable running state, without new events: all transactions ever pushed surely finish if and only if none may hang |
| HandlerService.BacklogIsWorkedOff | Dpa/DpaHandler2.cpp:38-53 | in whatever order, a handler left alone with a backlog finishes all of it up to the first that may hang, the oldest n - 16 rejected, the others sent or with their own error |
| HandlerHangs.HangsIff | Dpa/DpaTransaction2.cpp:276-288 | a started transaction hangs if and only if it is infinite and its log ends with the send or a confirmation |
| HandlerHangs.HangsOnIff | Dpa/DpaTransaction2.cpp:276-292 | of all steps of all threads exactly an abort of it and a matching response end the hanging |
| HandlerHangs.HoldsUpForEver | Dpa/DpaHandler2.cpp:43-53 | without these, over every run, it hangs on, the worker does not exit and nothing younger starts |
| HandlerShutdown.StopAbandons | Dpa/DpaHandler2.cpp:74-82 | what a stop leaves in the queue, or comes later, never starts and never finishes |
| HandlerShutdown.StoppedServesIff | include/TaskQueue.h:89-97 | a stopped handler surely finishes exactly what was taken out of the queue and may not hang |
| HandlerShutdown.ExitsIff | include/TaskQueue.h:54-65 | in whatever order, the worker exits if and only if it was stopped and nothing in flight may hang |
| HandlerShutdown.JoinsIff | Dpa/DpaHandler2.cpp:74-82 | from right after the abort, over every run before and after the stop: the worker is joined if and only if no transaction, queued ones included, may hang |
| HandlerShutdown.DestructorEndsIff | Dpa/DpaHandler2.cpp:74-82 | the same from the call: if and only if no transaction can hang in spite of the abort |
| HandlerShutdown.UninterruptedIff | Dpa/DpaHandler2.cpp:74-82 | if nothing happens between abort and stop: if and only if the one in flight cannot hang in spite of the abort |
| HandlerWitnesses.LostShutdown | Dpa/DpaHandler2.cpp:74-82 | a run in which the destructor's abort comes before the start and the transaction hangs |
| HandlerWitnesses.OvertakenShutdown | Dpa/DpaHandler2.cpp:74-82 | a run in which the abort works, and the next transaction starts and hangs before the stop |
| HandlerWitnesses.StaleAnswer | Dpa/DpaHandler2.cpp:117-124 | a run in which a frame that is older than the request answers it |
| HandlerTasks.PushIsRun | Dpa/DpaHandler2.cpp:127-145 | the machine's push does what executeDpaTransaction does |
| HandlerTasks.FrameIsRun | Dpa/DpaHandler2.cpp:85-125 | the machine's steps for a frame do what ResponseMessageHandler does |
| HandlerTasks.TaskIsRun | Dpa/DpaHandler2.cpp:43-53 | for every schedule of aborts and deliverable frames the machine has a run that does what the processing function does, and nothing to other transactions |
| HandlerTasks.DestructorIsRun | Dpa/DpaHandler2.cpp:74-82 | the machine's steps for the destructor's critical sections do what these do, whatever happens between them |
| Handlers.DpaHandler2.constructor | Dpa/DpaHandler2.cpp:40-72 | the initial handler: standard mode, version 4.02D, 500 ms |
| Handlers.DpaHandler2.SetTimeout | Dpa/DpaHandler2.cpp:152-159 | time-outs below 200 ms are raised |
| Handlers.DpaHandler2.ExecuteDpaTransaction | Dpa/DpaHandler2.cpp:127-145 | builds the transaction and queues it, unless the request is empty |
| Handlers.DpaHandler2.SendRequest | Dpa/DpaHandler2.cpp:251-261 | the channel is asked to send exactly the bytes in use, and a std::exception of it is not passed on |
| Handlers.DpaHandler2.ProcessTask | Dpa/DpaHandler2.cpp:43-53 | makes the transaction pending, applies the overload rule and executes it |
| Handlers.DpaHandler2.Judge | Dpa/DpaHandler2.cpp:45-52 | the overload rule on the object's queue |
| Handlers.DpaHandler2.StartTask | Dpa/DpaTransaction2.cpp:217-256 | execute() up to its loop, with the handler's sender called under the mutex |
| Handlers.DpaHandler2.RunTask | Dpa/DpaTransaction2.cpp:214-343 | the whole of execute() with that sender |
| Handlers.DpaHandler2.Parse | Dpa/DpaHandler2.cpp:86-101 | the message that a frame holds, if any |
| Handlers.DpaHandler2.ResponseMessageHandler | Dpa/DpaHandler2.cpp:85-125 | does with a frame what its route says |
| Handlers.DpaHandler2.AbortPending | Dpa/DpaHandler2.cpp:76-79 | the destructor's first critical section aborts the pending transaction |
| Handlers.DpaHandler2.Shutdown | Dpa/DpaHandler2.cpp:74-82 | both critical sections, one right after the other |

## Left out

- Transactions.DpaTransaction2.Execute: which other thread runs during a wait, and whether the wait expires, is the schedule argument; Dafny has no threads, so all interleavings are covered by quantifying over schedules and, with `IterateIsRun`, by the results on runs.
- Transactions.DpaTransaction2.Get: the same for the waits of get(); when the argument is used up the call ends where get() would go on waiting. The unreachable report of a busy interface is in `TransactionGetters` only.
- TaskQueues.TaskQueue.Worker: the others act only where the worker does not hold the lock and its next statement depends on them; the finer interleavings are those of `TaskQueueMachine`. The loop bodies are methods of their own. An argument that is used up ends the call where the worker would go on waiting.
- TransactionMachine.Start: the sender runs under the mutex and either returns or throws once; what the channel does is a parameter. A sender that throws something else than a std::exception ends the process, so no run goes on after it.
- TransactionDurations.IterationsAreBounded: bounds the durations that the waits ask for, not the time on a clock.
- Handlers.DpaHandler2.ProcessTask: its contract does not mention the handler's machine; `HandlerTasks.TaskIsRun` relates the two on values, for schedules in which the other threads abort the running transaction or deliver frames to it. Other interleavings, as of pushes, are in `HandlerMachine` only.
- Handlers.DpaHandler2.Shutdown: the object's worker does not act between its two critical sections; the runs in which it does are in `HandlerShutdown`. The pointer read and the abort behind it are one step there; `JoinsIff` starts right after the abort and holds whichever transaction was aborted.
- Handlers.DpaHandler2.ResponseMessageHandler: needs a pending transaction when a frame is routed to it; the original dereferences a null pointer otherwise.
- The empty-request transaction is built but never queued, so `get` on it never returns; `HandlerMachine` does not push it.
- `DpaMessage` from zero bytes leaves its length uninitialised; such a construction, and a null data pointer, are not modelled.
- Reads of the run flag and of the pending pointer outside a lock are atomic steps; the C++ memory model and the lifetime of shared pointers are not modelled.
- Scheduling fairness and real clocks: progress is stated about runs of the worker, owed notifications, wake-ups and a delivery under way that come to rest, and every state has such a run.
- `getFrcTimeout`: its only use is commented out (Dpa/DpaTransaction2.cpp:132-140).
- IqrfSpiChannel and IqrfCdcChannel: hardware access; a channel is a send that may fail and a source of arbitrary frames.
- Registration of message handlers, settings other than the time-out, timestamps, error strings, `overrideErrorCode`, transaction ids and tracing: they do not influence the engine.
