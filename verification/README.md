# A verified model of the modem management daemons

Two daemons and a dial-up client talk to a cellular modem: `fm160d` keeps the modem's state and dials, `at-daemon` carries AT commands and reports what the modem says on its own, and `fibocom-dial` multiplexes QMI requests. This project models the protocol machines and the parsers of the three in Dafny and proves what they keep over whole runs.

| part | files |
|---|---|
| AT request queue of fm160d (`atq.c`) | `AtQueueModel`, `AtQueue`, `AtQueueTheorems`, `AtQueueAnswers` |
| ECM dialer and its reset ledger (`dialer.c`) | `DialerModel`, `Dialer`, `DialerBound`, `DialerLedger`, `DialerRefusal`, `DialerClimb`, `LedgerText` |
| line events and the wake-up pipe (`line_events.c`) | `LineEventModel`, `LineEvents`, `WakeUp` |
| line framing and command correlation (`at_handler.c`) | `FramingModel`, `Framing`, `FramingEnds`, `Correlation` |
| port leases (`control.c`) | `LeaseModel`, `Lease`, `LeaseRuns`, `LeaseTimes` |
| QMI proxy (`fibo_qmimsg_server.c`) | `ProxyModel`, `Proxy`, `ProxyTheorems`, `ProxyHangup`, `QList` |
| QMI messages and their two finders (`QMIThread.c`, `fibo_qmimsg_server.c`) | `TlvModel`, `Tlv`, `TlvSays` |
| cell lock command and read-back (`cmds.c`) | `CellLockModel`, `CellLock`, `RespLines`, `Csv` |
| NMEA satellite picture (`cmds.c`) | `GnssModel`, `Gnss`, `GnssTheorems`, `GnssSays` |
| numerals of the C library, optional values | `Numerals`, `Options` |

In each part a `...Model` file says what the component does to values, the file of plain name holds the imperative code (classes, buffers, loops) proved against it, and the theorems are about the model's runs. The two concurrent parts, `WakeUp` and `Correlation`, are machines whose steps are the critical sections of the threads. `dafny verify dfyconfig.toml` checks everything.

## What the AT queue's trace is

`AtQueue` re-enters itself the way the C code does: the reply handler runs inside the send, retires the request, runs a callback that may submit again, and dispatches the next request. A list of turns says how each exchange ends, what the clock and the daemon state are then, and what each callback submits; it stands for any finite run. Every elementary thing the queue does is logged as an event, and every method keeps the log a legal trace of the machine in `AtQueueModel`, so a theorem about legal traces is a theorem about every run of the class.

## Assumptions

- The transport is synchronous, and its reply handler runs exactly once if and only if `ubus_invoke` returns 0. A bus connection lost during an exchange is noticed when the exchange ends. Callbacks run by `atq_state_reset` submit nothing.
- One dialer tick and the modem's answer to what it submitted are one step. What the parsers of `net.c` make of an answer is an input of the step; `net.c` is not part of this model.
- For the reset limit, the wall clock is positive and never goes back, and writes to the configuration store persist. The limit is at most the eight entries of the ledger.
- One sender at a time uses a port; each step of `Correlation` and `WakeUp` is one critical section or one store outside a lock. Whether a line matches an end flag is an input of the step.
- Lease calls are made one at a time, each with the monotonic time it reads, and those times never decrease.
- The proxy's device and clients are always writable. The routing theorems of `ProxyTheorems` are about runs in which no client disconnects, no control indication arrives, and the bytes kept for open descriptors are distinct; `ProxyHangup` adds one disconnect to such a run and then any questions, answers and new clients on other descriptors. That a connection's id table balances its allocations and releases depends on the modem; `TablesBalance` says on what.
- Allocation succeeds. 64-bit counters do not wrap. Builders are given profiles that fit the 256-byte buffer, the terminators of their texts included. C strings hold no NUL except where `Framing` says otherwise.

## Where the code differs from its own comments and documentation

- `fm160d/src/atq.c:473-488` announces that the youngest lowest-priority item is dropped; the scan keeps the first it meets, which is the oldest (`EvictionIsDownward`).
- The starvation guard of `fm160d/src/atq.c:373-376` relabels only the request that was already chosen. It changes no order (`ClassOrder`), but it hides a poll from the duplicate test: while the callback of a promoted poll runs, the same poll can be queued again (`CoalescedExactly` says exactly when; `CoalescingFails` is such a run).
- `resets_in_window` only grows while the daemon runs (`fm160d/src/dialer.c:278-322`): once it reaches the limit, resets are refused until the daemon restarts, however old the last one is (`RefusalOutlivesWindow`, `ResetsExactlyBelow`; `RefusedWithEmptyWindow` builds the run). `CountIsExact` says when the counter and the window agree.
- The comment inside `fm160d/src/cmds.c:1572-1586` calls `<scs>` and `<nrband>` individually optional; the code writes `<nrband>` only behind `<scs>`, and the model follows the code.
- A terminal line that the reader holds while its command times out completes the command started next (`CompletionCanBeForeign`); `CompletionIsOwn` says exactly when this does not happen.
- A NUL byte in the residue makes the reader deaf until the buffer overflows (`NulDeafens`); `FramingExact` says for which streams framing is right however they are cut.
- In `fibocom-dial/src/QMIThread.c:228-240` the CDMA variant of the profile index sits inside a branch for networks that are not CDMA, so it is never written.
- `fibocom-dial/src/fibo_qmimsg_server.c:756-771` looks at a stray byte behind the last value, which `GetTLV` does not; the contract of `QmiFindTlv` says what it then returns.
- A disconnect drops only the first queued control request of the client (`fibocom-dial/src/fibo_qmimsg_server.c:533-541`). The answer already on its way can then reach another client (`MisdeliveryExact`, `MisdeliveryHappens`), and a second request of the departed client blocks the queue (`WedgeExact`, `WedgeHolds`, `WedgeHappens`).
- A client's descriptor is kept in one byte (`fibocom-dial/src/fibo_qmimsg_server.c:493-510`), so a client accepted at 256 or above is never read (`ReadUnderOwn`), and may close another one (`SharedByteClosesOther`).

## Model

| member | source | states |
|---|---|---|
| AtQueueTheorems.ExactlyOnce | fm160d/src/atq.c:115-138 | over every run, at every point: an accepted request is in exactly one of queued, on the wire awaiting its report, reported once, or evicted unreported; a refused one is in none |
| AtQueueTheorems.NextConserves | fm160d/src/atq.c:357-399 | each elementary event moves a request from one of those places to exactly one other |
| AtQueueTheorems.NeverTouchedAgain | fm160d/src/atq.c:478-483 | once a request has been evicted, stranded, flushed or released no later event of any run concerns it, whatever its callback submitted |
| AtQueueTheorems.Bounds | fm160d/src/atq.c:401-415 | in every reachable state the depth, wire included, is at most 24, and no two outstanding requests at POLL priority carry the same command |
| AtQueueTheorems.EvictionIsDownward | fm160d/src/atq.c:470-490 | eviction happens only at depth 24, takes the oldest of the lowest class present, which is strictly less urgent than the newcomer, and never an INTERACTIVE request |
| AtQueueTheorems.DispatchTakesLeast | fm160d/src/atq.c:357-399 | each dispatch takes the queue's least request by (priority, submission id) |
| AtQueueTheorems.ClassOrder | fm160d/src/atq.c:364-378 | over whole runs the requests submitted at one priority are dispatched in submission order, with or without the age promotion |
| AtQueueTheorems.WireBlocks | fm160d/src/atq.c:278-355 | in the trace of exchanges each request is one contiguous block |
| AtQueueTheorems.PayloadFollowsPrompt | fm160d/src/atq.c:215-252 | a payload is written only as the next exchange after the command of the same request was answered with the prompt it asks for |
| AtQueueTheorems.PromptThenPayload | fm160d/src/atq.c:215-252 | once that prompt has come, the next exchange of the run, whenever it is, is the payload of that request |
| AtQueueTheorems.CoalescedExactly | fm160d/src/atq.c:401-415 | in every reachable state a poll for a command that has a poll outstanding is turned away as a duplicate, if and only if not (that poll is on the wire, promoted, and no other is queued); where submissions can arrive and there is room it is accepted exactly in the other case |
| AtQueueTheorems.CoalescingExact | fm160d/src/atq.c:373-376 | so two outstanding requests submitted as polls for one command exist only where one of them is on the wire and was promoted |
| AtQueueTheorems.CoalescingFails | fm160d/src/atq.c:401-415 | that case occurs: a poll that waited for over 30 s is promoted as it is taken, and its own callback gets the same poll queued beside it |
| AtQueueTheorems.IdleSettles | fm160d/src/atq.c:115-138 | whenever nothing is queued and the wire is free, every request ever accepted has been reported or evicted, exactly once |
| AtQueueAnswers.ReportedAs | fm160d/src/atq.c:140-209 | in every run each report is the verdict on the latest exchange before it, which was made for that request: ERROR where the text of the answer holds one, whatever the transport calls it, or where a command that was to end in a prompt is called done; OK where a final exchange is called a success and its text holds no error; TIMEOUT for all else, a refused exchange, an empty reply and a missing transport included |
| AtQueueAnswers.PayloadFollowsExactly | fm160d/src/atq.c:215-252 | the payload follows if and only if the modem asks for it and its text holds no error |
| AtQueueAnswers.SentSays | fm160d/src/atq.c:278-355 | every exchange of every run carries its request's own port or else the daemon's, its command or else its payload, the end it waits for, and the time asked for in whole seconds rounded up, at least one, which the bus gives two seconds more |
| AtQueueAnswers.BusWaitsLonger | fm160d/src/atq.c:300-318 | so the bus waits at least a second longer than the transport |
| AtQueueAnswers.TakenSays | fm160d/src/atq.c:357-399 | a request goes on the wire as it was queued, but a poll that waited for more than 30 s goes as STATE; and only one that names a port, or while the daemon has found one |
| AtQueueAnswers.StrandedSays | fm160d/src/atq.c:380-393 | a request is dropped for want of a port only where it names none and the daemon has found none |
| AtQueueAnswers.DispatchOneWay | fm160d/src/atq.c:357-399 | while something is queued exactly one request is next; with the wire free it goes on the wire, or is dropped where it has no port to go to, and nothing else is |
| AtQueueAnswers.LookupsApart | fm160d/src/atq.c:53-68 | the transport is looked up at most every three seconds, unless the bus connection was lost in between |
| AtQueueAnswers.SentToFound | fm160d/src/atq.c:278-355 | a command is sent only to a transport that was found, and neither refused an exchange nor was lost since |
| AtQueueAnswers.NotReadySays | fm160d/src/atq.c:53-68 | a request fails for want of a transport only without a bus, or within three seconds of the last lookup |
| AtQueueAnswers.HintFreesLookup | fm160d/src/atq.c:536-541 | after a lost connection the transport may be looked up at once |
| AtQueueAnswers.FreshOneWay | fm160d/src/atq.c:285-289 | a request on the wire always has one way to go: to a known transport it is sent; an unknown one is looked up, or the request fails, and never both |
| AtQueueAnswers.AdmittedExactly | fm160d/src/atq.c:417-470 | while the daemon manages the modem everything that names its own port is let in; else nothing without a port, and polls only outside a quiet window and while the modem answers |
| AtQueueAnswers.AnsweredOneWay | fm160d/src/atq.c:401-490 | in every reachable state a submission that is let in meets exactly one end: a poll with its like outstanding is a duplicate; with room the request is taken; at depth 24 it is taken at the cost of a queued request if one is less urgent, else refused for want of space |
| AtQueueAnswers.TurnedAwayOneWay | fm160d/src/atq.c:417-470 | one that is not let in is turned away with its reason and with no other |
| AtQueueAnswers.RequestSays | fm160d/src/atq.c:436-468 | the request made of a submission is what was submitted, cut to its fields, with the default time and prompt |
| AtQueueModel.PrefixLegal | fm160d/src/atq.c:417-493 | every prefix of a legal trace is a legal trace, so the invariants hold at every point of a run |
| AtQueueCode.AtQueue.Submit | fm160d/src/atq.c:417-493 | the re-entrant submission keeps a legal trace; after it an idle wire means an empty queue; a refused request leaves the queue as it was; an accepted one is the next event of the trace |
| AtQueueCode.AtQueue.IsDuplicate | fm160d/src/atq.c:401-415 | a poll is a duplicate if and only if its command is queued or on the wire at POLL priority |
| AtQueueCode.AtQueue.MakeRoom | fm160d/src/atq.c:473-488 | room is found exactly where the depth is below 24 or the worst queued request is strictly less urgent |
| AtQueueCode.AtQueue.PickVictim | fm160d/src/atq.c:475-477 | the eviction scan finds the first of the least urgent requests |
| AtQueueCode.AtQueue.PickBest | fm160d/src/atq.c:364-371 | the dispatch scan finds the first of the most urgent requests |
| AtQueueCode.AtQueue.Accept | fm160d/src/atq.c:478-490 | the victim, if any, goes and the newcomer joins the tail, as one event of the trace |
| AtQueueCode.AtQueue.Dispatch | fm160d/src/atq.c:357-399 | with the wire free it ends only when the queue is empty and the wire idle; with the wire busy it does nothing |
| AtQueueCode.AtQueue.Launch | fm160d/src/atq.c:394-398 | the chosen request goes on the wire and is seen through to its report, success or not |
| AtQueueCode.AtQueue.Issue | fm160d/src/atq.c:278-355 | where it returns zero the request has been retired and the queue worked off; otherwise it is still on the wire, settled as timed out |
| AtQueueCode.AtQueue.SendAt | fm160d/src/atq.c:256-276 | one synchronous exchange: the stage afterwards follows from the answer, and nothing but the wire changes |
| AtQueueCode.AtQueue.Finish | fm160d/src/atq.c:115-138 | the request on the wire is reported first, then freed, then the next one is started; it ends with an idle wire and an empty queue |
| AtQueueCode.AtQueue.DaemonReady | fm160d/src/atq.c:53-68 | the transport is looked up only after the retry time and when it is not known |
| AtQueueCode.AtQueue.StateReset | fm160d/src/atq.c:576-586 | every queued request is reported once, in queue order; the one on the wire is left alone |
| AtQueueCode.AtQueue.Serve | fm160d/src/atq.c:417-493 | work conservation over runs: after any list of submissions, resets, reconnect hints and clock changes nothing waits and the wire is idle, and every request accepted so far has been reported or evicted exactly once |
| AtQueueCode.AtQueue.HintReconnect | fm160d/src/atq.c:536-541 | a lost bus connection forgets the transport and its retry time, so that the next request looks it up at once |
| DialerBound.DialTerminates | fm160d/src/dialer.c:353-411 | after one start a run of any length submits at most 11(r+1)(L+1)+r commands, plus 2 while the activation command is unknown, and none while an earlier submission is still unanswered; the run is of ticks in which no read of the context yields an accepted address, of options being read again and of starts while the dialer is on its way, with no stop and no daemon restart; L is the ladder length, and r the resets still to come if they are switched on at the start or become so in the run, else 0 |
| DialerBound.BoundIsReached | fm160d/src/dialer.c:422-713 | no smaller bound is true: for every ladder, limit and history, and with resets switched on or off, some such run submits exactly that many |
| DialerBound.TickBudget | fm160d/src/dialer.c:933-1067 | every tick that does not read an accepted address pays for the commands it submits out of one measure over resets left, attempts left, rung, sub-step and address polls |
| DialerBound.EventBudget | fm160d/src/ubus_methods.c:1008-1017 | so does reading the options again, which can switch resets on or off in the middle of an attempt, and a start while the dialer is on its way |
| DialerBound.RunBudget | fm160d/src/dialer.c:933-1067 | so does every run of such events, whatever else the modem answers |
| DialerBound.StartBudget | fm160d/src/dialer.c:838-885 | what a start makes available, in closed form; nothing while an earlier submission is still unanswered |
| DialerBound.Fm160Bound | fm160d/src/net.h:238-249 | with the ladder and limit of the firmware: such a run submits at most 269 commands, 68 where resets are off and stay off |
| DialerClimb.DialComesUp | fm160d/src/dialer.c:422-713 | from a start that takes effect, over every run in which each tick that acts is answered well, the fifth command (the sixth while the activation command is unknown) brings the link up, and no earlier one does, on the first attempt and without a reset, and it stays up; the activation itself may be answered with any status short of an answered "not active" |
| DialerClimb.FailureFallsBack | fm160d/src/dialer.c:385-411 | which answers fail a rung, in the fields of the answer, and what that costs: the next delay of the ladder, or behind its last a reset where resets are on and the counter is below the limit, else stopping |
| DialerClimb.SuccessMovesOn | fm160d/src/dialer.c:584-630 | every other answer moves on to the next rung or the next try of this one, with the same attempt unless the link has come up, and without a reset; a refused or unanswered activation is settled by reading the context |
| DialerClimb.BacksOff | fm160d/src/dialer.c:933-1067 | over every run of ticks before the back-off is over nothing is sent and nothing changes |
| DialerClimb.DeactivatedOnce | fm160d/src/dialer.c:933-1067 | a link that was up is deactivated once, and activated again a second later |
| DialerClimb.StopTakesDown | fm160d/src/dialer.c:887-931 | a stop takes the wish and the link down and sends the disconnect where the activation command is known, whatever becomes of it |
| DialerClimb.StaysDown | fm160d/src/dialer.c:933-1067 | over every run of ticks a link that is not wanted stays down, unless an autostart is still due |
| DialerClimb.AutostartsOnce | fm160d/src/dialer.c:933-1067 | with the kind of link known an autostart counts as done, and the link is wanted exactly where the dialer could be started |
| DialerClimb.AutostartsOnlyThen | fm160d/src/dialer.c:933-1067 | any other tick on a link that is not wanted starts nothing |
| DialerClimb.StartRefused | fm160d/src/dialer.c:838-885 | a start that takes no effect changes only the configuration error, which it sets exactly where the access point is missing |
| DialerClimb.OptionsSay | fm160d/src/ubus_methods.c:1008-1017 | reading the options with the autostart off arms it again, and an access point once known stays known |
| DialerClimb.KindFollows | fm160d/src/dialer.c:933-1067 | the kind of link is what the daemon knows at the last enabled tick |
| DialerClimb.RefusedRetries | fm160d/src/dialer.c:747-762 | a command that the queue refuses costs nothing but two seconds |
| DialerClimb.LostHolds | fm160d/src/dialer.c:747-762 | a command that is never called back holds the dialer: no later tick sends anything |
| DialerClimb.UnbuildableSays | fm160d/src/dialer.c:933-1067 | an access point that makes no command stops the dialer as misconfigured; an activation that makes none fails its rung; a deactivation that cannot be built is dropped |
| DialerLedger.ResetRate | fm160d/src/dialer.c:242-322 | over any number of daemon restarts, with a forward clock and writes that persist, any set of resets lying pairwise within less than one window has at most LIMIT members |
| DialerLedger.RunKeeps | fm160d/src/dialer.c:353-382 | each reset comes a full window after the one LIMIT resets before it, over every run |
| DialerLedger.StepKeeps | fm160d/src/dialer.c:933-1067 | one event, restart included, keeps the link between the ledger, the counter and the resets made |
| DialerLedger.LoadCounts | fm160d/src/dialer.c:245-276 | a restarted daemon counts every recent reset, or at least LIMIT of them |
| DialerLedger.LoadCountsExactly | fm160d/src/dialer.c:245-276 | of the first eight stamps stored, whatever they are, a starting daemon counts those that are set, not in the future, and younger than the window |
| DialerLedger.NoteRecords | fm160d/src/dialer.c:278-322 | a written ledger holds the newest resets of the window, the new one included |
| DialerClimb.TotalCounts | fm160d/src/dialer.c:242-322 | over every run, restarts included, the total shown and the total stored are the number of resets ever made |
| DialerLedger.SpacedSets | fm160d/src/dialer.c:353-382 | spacing by LIMIT implies the bound on every set, not just on consecutive resets |
| DialerRefusal.RunCounts | fm160d/src/dialer.c:242-322 | over every run without a daemon restart the counter grows by the number of resets made, and no reset takes it past LIMIT |
| DialerRefusal.RefusalOutlivesWindow | fm160d/src/dialer.c:363-373 | once the counter has reached LIMIT no run makes a reset, however far the clocks go on, until the daemon is restarted |
| DialerRefusal.RefusedWithEmptyWindow | fm160d/src/dialer.c:353-382 | that comes about: for every ladder, limit and window, a run is built that makes all its resets, starts again a window later, climbs the ladder and is refused its reset with none in the window |
| DialerRefusal.ResetsExactlyBelow | fm160d/src/dialer.c:353-382 | where the dialer may be started, some run makes a reset before a daemon restart if and only if the counter is below LIMIT |
| DialerLedger.CountIsExact | fm160d/src/dialer.c:242-322 | exactly when refusing agrees with the window: a reset is allowed, or the LIMIT-th newest stamp is still inside it |
| LedgerText.FieldsOfJoin | fm160d/src/dialer.c:242-322 | the stamps read back from the stored string are the stamps written |
| LedgerText.FieldsClamp | fm160d/src/dialer.c:245-276 | any stored line of natural numbers is read back in order, each one too large for the C type as its largest value |
| LedgerText.CountStamps | fm160d/src/dialer.c:245-276 | the counting loop counts, of at most eight stored stamps, those inside the window |
| LedgerText.NewStamps | fm160d/src/dialer.c:278-322 | the rewriting loop stores the new stamp and up to seven still inside the window, and the text always fits its buffer |
| DialerCode.Dialer.DoTick | fm160d/src/dialer.c:933-1067 | the tick with its synchronous answer is one step of the modelled dialer: state, ledger, commands and resets |
| DialerCode.Dialer.DoStart | fm160d/src/dialer.c:838-885 | the start call, with its refusals |
| DialerCode.Dialer.DoStop | fm160d/src/dialer.c:887-931 | the stop call, whatever becomes of the disconnect it submits |
| DialerCode.Dialer.Callback | fm160d/src/dialer.c:422-741 | every rung callback, as a step of the modelled dialer |
| DialerCode.Dialer.DialSubmit | fm160d/src/dialer.c:747-762 | a submission refused, lost or answered |
| DialerCode.Dialer.DialEscalate | fm160d/src/dialer.c:353-382 | a reset with its ledger entry, or stopping, exactly as allowed |
| DialerCode.Dialer.DialFail | fm160d/src/dialer.c:385-411 | a failed rung waits for the next delay of the ladder, or escalates after the last |
| DialerCode.Dialer.LedgerLoad | fm160d/src/dialer.c:245-276 | the counter and total of the stored ledger |
| DialerCode.Dialer.LedgerNoteReset | fm160d/src/dialer.c:278-322 | the ledger with one more reset |
| LineEventModel.Conserved | at-daemon/src/line_events.c:56-119 | at all times calls = delivered + queued + dropped, and at most 256 are queued |
| LineEventModel.InOrder | at-daemon/src/line_events.c:56-119 | delivered and queued events together are a subsequence, in call order, of the lines that were not too long |
| LineEventModel.MarkersComplete | at-daemon/src/line_events.c:67-98 | pending is 0 or the current drop total; when 0, exactly one delivered or queued event carries the current total; no two events carry one total |
| LineEventModel.DrainedReadsLoss | at-daemon/src/line_events.c:104-119 | a drained consumer reads the exact loss as its largest marker if and only if nothing is pending |
| LineEventModel.NextLineTells | at-daemon/src/line_events.c:80-98 | after any calls, a short line that finds room leaves nothing pending, and if anything was dropped exactly one delivered or queued event carries the current total |
| LineEventModel.DrainAfterLine | at-daemon/src/line_events.c:80-119 | so a consumer that drains the ring behind such a line reads the exact loss as its largest marker |
| LineEventModel.FullRingTells | at-daemon/src/line_events.c:67-79 | a line that finds the ring full costs the oldest event, and the new oldest one tells the loss |
| LineEventModel.LongLinePends | at-daemon/src/line_events.c:56-66 | a line that is too long is counted, and its loss is pending |
| LineEventModel.KeepsNewest | at-daemon/src/line_events.c:56-119 | what is queued is always the newest of the short lines: the ring loses only its oldest |
| LineEventCode.LineEventQueue.EnqueueLine | at-daemon/src/line_events.c:56-102 | the ring with its wrap-around, drop counters and wake-up byte does to its contents what the bounded FIFO does |
| LineEventCode.LineEventQueue.DequeueLine | at-daemon/src/line_events.c:104-119 | the oldest event, or none |
| LineEventCode.LineEventQueue.Overflow | at-daemon/src/line_events.c:67-79 | the oldest event is dropped and the new head carries the new total |
| LineEventCode.LineEventQueue.Append | at-daemon/src/line_events.c:80-98 | the event joins the end, wherever the ring wraps |
| LineEventCode.LineEventQueue.Consume | at-daemon/src/line_events.c:121-143 | a run takes the oldest events in order up to the budget, and leaves a wake-up byte exactly where events remain |
| WakeUp.NoLostWakeUp | at-daemon/src/line_events.c:75-101 | in every interleaving of producers and consumer a non-empty queue implies a byte in the pipe, a producer about to write one, or a consumer that has not re-checked |
| WakeUp.RunEnds | at-daemon/src/line_events.c:121-143 | a woken consumer always comes to the end of its run |
| WakeUp.OneByteEach | at-daemon/src/line_events.c:75-101 | each short line owes the pipe one byte, and a line that is too long owes none |
| WakeUp.WokenByBytes | at-daemon/src/line_events.c:121-143 | in every interleaving the consumer wakes at most once for each byte that a producer, or it itself with events left, has written |
| WakeUp.QuietDrains | at-daemon/src/const.h:27-28 | with producers quiet, exactly ceil(count/64) runs empty the queue, deliver everything in order and leave the pipe empty |
| FramingModel.ChunksDoNotMatter | at-daemon/src/at_handler.c:320-356 | for a NUL-free stream cut anyhow, without overflow or prompt, the reported lines are those of the whole stream without empty lines and echoes, each with its command id and correlation, and the residue is the unfinished tail |
| FramingModel.AnyTwoCuts | at-daemon/src/at_handler.c:320-356 | two ways of cutting one stream report the same and leave the same state |
| FramingModel.SplitGrows | at-daemon/src/at_handler.c:388-407 | splitting a text and then its tail with what arrives next is splitting the whole |
| FramingEnds.CutAtEvery | at-daemon/src/at_handler.c:344-407 | a text is cut at every CRLF: its lines, each with its CRLF, and its tail are the text, and neither a line nor the tail holds one |
| FramingModel.NulDeafens | at-daemon/src/at_handler.c:434-439 | a NUL that no CRLF precedes silences the reader until the buffer overflows |
| FramingModel.FramingExact | at-daemon/src/at_handler.c:337-443 | for a stream that fits the buffer while no command waits: every way of cutting it reports the lines of the whole and keeps its tail, if and only if it holds no NUL or no CRLF |
| FramingEnds.EndsOnce | at-daemon/src/at_handler.c:351-404 | of any list of lines, the first that is passed on and ends the waiting command is its one terminal event; what was before is the command's own, what comes behind is idle with id 0, and the listener waits no longer |
| FramingEnds.GoesOnWaiting | at-daemon/src/at_handler.c:351-404 | while no line ends it the command goes on waiting, there is no terminal event, and every line is its own |
| FramingEnds.PromptEnds | at-daemon/src/at_handler.c:408-432 | a read whose lines leave the command waiting and whose tail is the prompt ends it, and takes the prompt out of the buffer |
| FramingEnds.OnlyThese | at-daemon/src/at_handler.c:344-432 | nothing but a terminal line or such a prompt ends a wait |
| FramingEnds.OverflowForgets | at-daemon/src/at_handler.c:337-343 | a read that does not fit loses itself and what was buffered, reports nothing, and the command goes on waiting |
| FramingEnds.EndsExactly | at-daemon/src/at_handler.c:79-121 | a line ends a command if and only if, blanks apart, it is one of the flags, whichever, or begins with one and a space or a tab |
| FramingCode.LineReader.Receive | at-daemon/src/at_handler.c:337-443 | one read on the buffer, in place, does what the splitter does to its text |
| FramingCode.LineReader.TakeLines | at-daemon/src/at_handler.c:344-407 | every complete line is reported once and the unfinished text starts where the last one ended |
| FramingCode.LineReader.TakeLine | at-daemon/src/at_handler.c:347-407 | one line is cut at its CRLF and the bytes behind it are untouched |
| FramingCode.LineReader.TakePrompt | at-daemon/src/at_handler.c:408-432 | the unfinished text is consumed exactly where it is the prompt that is waited for |
| FramingCode.LineReader.Process | at-daemon/src/at_handler.c:351-404 | a line completes the waiting command and is reported with its correlation |
| FramingCode.LineReader.MoveUp | at-daemon/src/at_handler.c:434-439 | the residue moves to the front of the buffer, cut at its first NUL |
| Correlation.EventStream | at-daemon/src/at_handler.c:353-404 | in every interleaving of reader, sender and timeout: events of one command are contiguous and in the order the lines were taken, at most one is terminal and it is the last, ids never go back, no line taken is missing |
| Correlation.LineReported | at-daemon/src/at_handler.c:353-404 | whatever the sender does meanwhile, a line offered to a free reader is reported once, with the command that waited when it was taken |
| Correlation.OthersPassBy | at-daemon/src/at_handler.c:353-358 | an empty line or the echo of a command is not even taken |
| Correlation.FailedWriteEnds | at-daemon/src/at_handler.c:172-204 | whatever the reader does meanwhile, a command whose write fails is over and completed by nothing |
| Correlation.WrittenWaits | at-daemon/src/at_handler.c:206-233 | one that was written waits, whatever the reader does, until it is completed or its time is over |
| Correlation.CompletedOnce | at-daemon/src/at_handler.c:369-387 | no command is completed twice, and completions follow the order of the starts |
| Correlation.WakesCompleted | at-daemon/src/at_handler.c:206-233 | a sender woken without a timeout finds its own command completed |
| Correlation.CompletionIsOwn | at-daemon/src/at_handler.c:369-387 | a completion by a terminal line is by a line taken for that command if and only if no command started while the reader held the line; a completion by the prompt is judged and made in one step, so it counts as own by construction |
| Correlation.CompletionCanBeForeign | at-daemon/src/at_handler.c:369-387 | a run in which the late answer of a timed-out command completes the next one |
| Correlation.PatientSendersAreRight | at-daemon/src/at_handler.c:206-233 | while no wait times out and no write fails, every completion is the command's own |
| LeaseRuns.Exclusion | at-daemon/src/control.c:36-136 | from a successful acquire until its release or latest expiry, over every run: every other acquire of the port is refused, and only its owner is authorised, may renew or may release |
| LeaseRuns.OneHolder | at-daemon/src/control.c:36-71 | two leases of one port are never in force at once |
| LeaseRuns.StaleToken | at-daemon/src/control.c:73-118 | the token of a released or expired lease never renews or releases anything |
| LeaseRuns.ForeignToken | at-daemon/src/control.c:62-64 | nor does a token issued by another life of the daemon |
| LeaseRuns.TokenNames | at-daemon/src/control.c:62-64 | a token determines the daemon life and the lease number it was printed from |
| LeaseRuns.TokenFits | at-daemon/src/control.c:62-64 | a token fits its 96 bytes while both counters are 64-bit values |
| LeaseTimes.KeptForItsTime | at-daemon/src/control.c:36-136 | from the times and arguments of the calls alone: for the seconds asked for after a successful acquire or its latest renewal, while it is not released, every other valid acquire of the port is refused, everyone but the owner is turned away, and only the owner with the token may renew or release |
| LeaseTimes.FreeAfterItsTime | at-daemon/src/control.c:36-136 | from the end of the last such time on, or after the release, everyone is authorised and a valid acquire succeeds |
| LeaseTimes.HoldsInTime | at-daemon/src/control.c:65-89 | a lease is in force exactly while its time lasts, counted from its latest grant; a renewal may shorten it |
| LeaseTimes.Codes | at-daemon/src/control.c:36-136 | a malformed call, a leased port and an unknown lease each get their own refusal, and only a successful acquire or renewal is told a time: the call's plus the seconds asked for |
| LeaseTimes.FoundInForce | at-daemon/src/control.c:73-118 | a renewal or release that succeeds has found a lease in force |
| LeaseRuns.OwnRenewal | at-daemon/src/control.c:73-97 | the holder's own renewal succeeds and moves the expiry to the time it is told |
| LeaseRuns.FreePort | at-daemon/src/control.c:120-136 | where no lease is in force everyone is authorised and a valid acquire succeeds |
| LeaseCode.LeaseTable.ExpireLeases | at-daemon/src/control.c:12-26 | exactly the expired leases go, in place, and the others keep their order |
| LeaseCode.LeaseTable.Acquire | at-daemon/src/control.c:36-71 | the call on the table, with its refusals |
| LeaseCode.LeaseTable.Renew | at-daemon/src/control.c:73-97 | the call on the table, with its refusals |
| LeaseCode.LeaseTable.Release | at-daemon/src/control.c:99-118 | the call on the table, with its refusals |
| LeaseCode.LeaseTable.Authorize | at-daemon/src/control.c:120-136 | the call on the table |
| ProxyTheorems.OneOutstanding | fibocom-dial/src/fibo_qmimsg_server.c:706-727 | the control queue is non-empty exactly while one request is outstanding, and its head is that request |
| ProxyTheorems.NthAnswer | fibocom-dial/src/fibo_qmimsg_server.c:630-689 | the n-th control response that finds a question open goes to the connection that asked the n-th question, once, and the device was asked in that order |
| ProxyTheorems.TablesBalance | fibocom-dial/src/fibo_qmimsg_server.c:549-578 | each connection's id table and its confirmed releases together are its confirmed allocations, whatever the other connections do, if and only if the modem never confirmed to it the release of an id it did not hold |
| ProxyTheorems.BalanceFails | fibocom-dial/src/fibo_qmimsg_server.c:563-578 | a run in which it did: the table then holds an id that was allocated once and released once |
| ProxyTheorems.NotesReachHolders | fibocom-dial/src/fibo_qmimsg_server.c:690-704 | a service message reaches a client if and only if the client holds the id it names, or any id of the service when it names none |
| ProxyTheorems.OneCopyPerId | fibocom-dial/src/fibo_qmimsg_server.c:690-704 | in every run a service message reaches each client once for each id of its own that it is meant for, and changes nothing else |
| ProxyTheorems.AnswerBooks | fibocom-dial/src/fibo_qmimsg_server.c:549-578 | an answer books what it grants or frees for the asker and leaves every other table alone |
| ProxyHangup.MisdeliveryExact | fibocom-dial/src/fibo_qmimsg_server.c:514-547 | after a disconnect the outstanding answer goes to a client that did not ask for it, if and only if the asker is the one that left and another client's request heads the queue by then |
| ProxyHangup.FirstAnswer | fibocom-dial/src/fibo_qmimsg_server.c:652-676 | to whom it goes: the client whose request heads the queue by then, once, or nobody where that is still the departed client |
| ProxyHangup.WedgeExact | fibocom-dial/src/fibo_qmimsg_server.c:533-541 | after a disconnect and whatever follows, the queue is non-empty with nothing outstanding, if and only if the answers so far have brought up another request of the departed client, of which only the first was dropped |
| ProxyHangup.WedgePossible | fibocom-dial/src/fibo_qmimsg_server.c:533-541 | some continuation ends so if and only if such a request is left behind the head |
| ProxyHangup.TwoClients | fibocom-dial/src/fibo_qmimsg_server.c:493-510 | any two distinct descriptors give an orderly state with two clients and nothing asked |
| ProxyHangup.WedgeHappens | fibocom-dial/src/fibo_qmimsg_server.c:533-541 | it happens: from every orderly state with two clients, one asks, the other asks twice and leaves, and some continuation is wedged |
| ProxyHangup.MisdeliveryHappens | fibocom-dial/src/fibo_qmimsg_server.c:652-676 | and so does misdelivery: with nothing outstanding one client asks, then the other, the first leaves, and the other gets the answer |
| ProxyHangup.WedgeHolds | fibocom-dial/src/fibo_qmimsg_server.c:706-727 | from then on no question, indication or new client makes the proxy write to the device, unless the new client gets the closed descriptor |
| ProxyTheorems.IndicationRepeats | fibocom-dial/src/fibo_qmimsg_server.c:678-688 | a control indication writes the outstanding request again, exactly when there is one |
| ProxyTheorems.ReadUnderOwn | fibocom-dial/src/fibo_qmimsg_server.c:493-510 | descriptors are kept in one byte, and the poll loop watches that byte: over every run a client that is not hung up is read under its own descriptor if and only if it is below 256 |
| ProxyTheorems.SharedByteClosesOther | fibocom-dial/src/fibo_qmimsg_server.c:1094-1109 | where the byte is another client's, the failed second read of it closes that older client and drops its ids, and the newcomer stays |
| ProxyCode.ProxyServer.RecvControl | fibocom-dial/src/fibo_qmimsg_server.c:630-689 | a control message from the device, as a step of the modelled server |
| ProxyCode.ProxyServer.ServeHead | fibocom-dial/src/fibo_qmimsg_server.c:652-676 | the walk that answers the head and books its id, and the head's removal |
| ProxyCode.ProxyServer.WriteHead | fibocom-dial/src/fibo_qmimsg_server.c:678-688 | the walk that writes the next head |
| ProxyCode.ProxyServer.RecvData | fibocom-dial/src/fibo_qmimsg_server.c:690-704 | the two nested walks deliver one copy for each matching id |
| ProxyCode.ProxyServer.SendQmi | fibocom-dial/src/fibo_qmimsg_server.c:706-727 | a request is written at once only where none is outstanding, and always queued |
| ProxyCode.ProxyServer.CleanupConnection | fibocom-dial/src/fibo_qmimsg_server.c:514-547 | the connection goes with its ids, and one of its queued requests with it |
| ProxyCode.ProxyServer.AcceptConnection | fibocom-dial/src/fibo_qmimsg_server.c:493-510 | a new client joins the end with its descriptor in one byte |
| ProxyCode.ReleaseClient | fibocom-dial/src/fibo_qmimsg_server.c:563-578 | the first entry of that service and id goes, and nothing else |
| QList.AddTail | fibocom-dial/src/fibo_qmimsg_server.c:425-431 | the ring of linked nodes becomes that of the longer sequence |
| QList.Remove | fibocom-dial/src/fibo_qmimsg_server.c:433-437 | the ring of linked nodes becomes that of the sequence without the node |
| QList.ForEach | fibocom-dial/src/fibo_qmimsg_server.c:380-381 | the walk visits every node behind the head once, in order |
| QList.EmptyMeansAlone | fibocom-dial/src/fibo_qmimsg_server.c:383-383 | the emptiness test is right |
| TlvModel.MessageRoundTrip | fibocom-dial/src/QMIThread.c:99-142 | walking the payload of a composed message gives the intended list |
| TlvModel.WalkEncode | fibocom-dial/src/QMIThread.c:144-244 | for any list of values that fit their length field, walking its bytes gives the list back |
| TlvModel.EncodeWalk | fibocom-dial/src/QMIThread.c:67-89 | bytes that can be walked are the bytes of the list walked |
| TlvModel.MessageLengths | fibocom-dial/src/QMIThread.c:126-132 | both length fields of a message agree with its size |
| TlvSays.HeadersSay | fibocom-dial/src/QMIThread.c:99-142 | each header byte: the mark, the service and the client, the request flag, transaction, message type and both lengths as two bytes, low one first |
| TlvModel.StartSays | fibocom-dial/src/QMIThread.c:144-244 | looking a type up in the start request gives the profile's field where it applies, with the carrier's credentials on CDMA, and nothing otherwise |
| TlvModel.SettingsSay | fibocom-dial/src/QMIThread.c:491-643 | the same for the settings that create and modify share |
| TlvSays.FamilySays | fibocom-dial/src/QMIThread.c:491-643 | both families make a dual profile, IPv6 alone the second kind, anything else plain IPv4 |
| TlvSays.CreateSays | fibocom-dial/src/QMIThread.c:491-566 | a new profile is of the first type, and has the settings |
| TlvSays.ModifySays | fibocom-dial/src/QMIThread.c:568-643 | a changed one is named by its type and its index, and has the settings |
| TlvSays.CredentialsSay | fibocom-dial/src/QMIThread.c:144-244 | a start on CDMA without a user and a password carries the carrier's with CHAP; every other start carries the profile's own, and says how to authenticate only where it has both |
| TlvModel.GotReads | fibocom-dial/src/QMIThread.c:67-89 | lookup by type lands on the first of that type and lookup by index i on the i-th, with its bytes |
| TlvCode.GetTlv | fibocom-dial/src/QMIThread.c:67-89 | the loop with its 16-bit remaining length returns that position, or nothing |
| TlvCode.QmiFindTlv | fibocom-dial/src/fibo_qmimsg_server.c:756-771 | the other loop returns the first of the type, or a stray byte behind the list that passes for it, or nothing; its answer is that of the first finder exactly where no stray byte misleads it |
| TlvSays.MisledBehindList | fibocom-dial/src/fibo_qmimsg_server.c:756-771 | a stray byte that passes for the type sends the other finder behind the whole list |
| TlvCode.WdsStartNwInterfaceReq | fibocom-dial/src/QMIThread.c:144-244 | the bytes built in place are those of the intended list, and the headers before them are untouched |
| TlvCode.WdsCreateProfileSettingsReq | fibocom-dial/src/QMIThread.c:491-566 | the same for the create request |
| TlvCode.WdsModifyProfileSettingsReq | fibocom-dial/src/QMIThread.c:568-643 | the same for the modify request |
| TlvCode.Composer.Compose | fibocom-dial/src/QMIThread.c:99-142 | the message composed, headers included, or none where the service has no client id, with a transaction id that is never 0 and never repeats at once |
| TlvCode.QStrCpy | fibocom-dial/src/QMIThread.c:54-60 | the text and its terminator are copied and what is before them is untouched |
| CellLockModel.ReadBack | fm160d/src/cmds.c:1154-1197 | the read-back of any accepted lock command, on the first line of its name in any response, is read as the lock that was written |
| CellLockModel.Rewritten | fm160d/src/cmds.c:1543-1591 | and the lock so read, written again, is the same command |
| CellLockModel.ParseArgument | fm160d/src/cmds.c:1154-1197 | parsing the argument text gives the same mode, RAT, type and frequency and exactly the nested optional fields that were written |
| CellLockModel.SameText | fm160d/src/cmds.c:1543-1591 | two accepted commands with one text mean the same |
| RespLines.FoundInLines | fm160d/src/atq.c:617-653 | in terms of the lines of a response: what is found is the value in the first line that begins with the name as a whole token, without the colons and blanks before it, up to a carriage return, cut to the buffer |
| RespLines.ReadFrom | fm160d/src/cmds.c:1154-1197 | a reading is kept as it was exactly where no line begins with the name, or the first such line is the list of ranges; else it is read from the first 511 characters of the value of that line |
| RespLines.AcceptedExactly | fm160d/src/cmds.c:1543-1570 | a lock is taken off, with a bare 0, or put on for a known access technology and kind of cell; all else is refused |
| RespLines.NumbersRead | fm160d/src/cmds.c:1154-1197 | any line of numbers is read in order, each field that is missing as its own "not said" |
| RespLines.EmptyReads | fm160d/src/cmds.c:1154-1197 | a line without a value reads as not locked, with nothing said |
| RespLines.WrittenComesBack | fm160d/src/cmds.c:1543-1591 | a lock that was written comes back with the cell where one was named, and with spacing and band only behind it, on NR |
| CellLockCode.CellLockCommand | fm160d/src/cmds.c:1543-1591 | the buffer holds the whole command, or the call fails: exactly where the lock is not allowed or the buffer too small |
| CellLockCode.RespFindLine | fm160d/src/atq.c:617-653 | the value of the first line that starts with the name as a whole token, cut to the caller's buffer |
| CellLockCode.Settings.ParseCellLock | fm160d/src/cmds.c:1154-1197 | the reading is replaced as a whole, or left alone where there is no such line or it is the list of ranges |
| Csv.FieldOfJoin | fm160d/src/cmds.c:25-58 | reading field i of a comma-joined line of numbers gives the i-th number, and the fallback past its end |
| CellLockCode.Seek | fm160d/src/cmds.c:25-58 | the walk over commas finds what follows the i-th, or nothing |
| Numerals.AtoiReads | fm160d/src/cmds.c:25-40 | a printed number that no digit follows is read back by atoi |
| Numerals.StrtoullReads | fm160d/src/cmds.c:1172-1172 | and by strtoull with base 0 |
| Numerals.PrintInjective | at-daemon/src/control.c:62-64 | no two numbers are printed alike |
| GnssTheorems.OrderFree | fm160d/src/cmds.c:2371-2412 | within the table capacities a permutation of the sentences keeps the satellites, each one's place in the fix, the total in view, the best signal and the count used |
| GnssTheorems.FixMeansListed | fm160d/src/cmds.c:2393-2409 | while its own talker lists at most twelve PRNs in the block, a satellite is in the fix if and only if a GSA of that talker, anywhere in the block, lists its PRN |
| GnssTheorems.TalkersAll | fm160d/src/cmds.c:2058-2090 | with at most eight talkers in the block each of them has exactly one row |
| GnssTheorems.PiecesJoin | fm160d/src/cmds.c:2031-2045 | the fields of a sentence, joined again, are the sentence |
| GnssTheorems.JoinedPieces | fm160d/src/cmds.c:2031-2045 | fields without commas come out of their sentence as they went in |
| GnssSays.FieldsCounted | fm160d/src/cmds.c:2031-2045 | there is one field more than there are commas, up to the limit, and none in an empty sentence |
| GnssSays.SatellitesReadBack | fm160d/src/cmds.c:2099-2142 | satellites printed into a GSV come out of its text again as they were: in order, each value in its place, an empty one unknown, whatever fewer than four fields trail them |
| GnssSays.PrnsReadBack | fm160d/src/cmds.c:2174-2187 | PRNs printed into a GSA between its first three fields and its three dilutions are listed again in order, empty ones left out |
| GnssSays.CountReadBack | fm160d/src/cmds.c:2111-2116 | the fourth field of a GSV counts for its own talker, where it is there |
| GnssSays.EightRows | fm160d/src/cmds.c:2058-2090 | there are at most eight rows, of talkers that spoke, and one that spoke has none only where there are eight |
| GnssSays.RowsKept | fm160d/src/cmds.c:2058-2090 | a row once made stays, in its place |
| GnssSays.FirstKept | fm160d/src/cmds.c:2118-2140 | of everything seen the first 32 satellites are kept, of everything listed the first 12 PRNs of a talker |
| GnssSays.InViewSums | fm160d/src/cmds.c:2382-2392 | the total in view adds up the largest count of each row; a row that never gave one adds nothing |
| GnssCode.NmeaSplit | fm160d/src/cmds.c:2031-2045 | the splitting loop cuts at each comma up to the last field allowed |
| GnssCode.Reading.Gsv | fm160d/src/cmds.c:2099-2142 | after a GSV every table is that of the longer block: counts in view, satellites up to 32, best signal of each row |
| GnssCode.Reading.Gsa | fm160d/src/cmds.c:2155-2218 | after a GSA every table is that of the longer block: up to 12 PRNs of its talker, and the count of all used |
| GnssCode.Reading.Slot | fm160d/src/cmds.c:2058-2090 | the talker's row, made on first sight while there is room |
| GnssCode.Reading.LinkFix | fm160d/src/cmds.c:2382-2412 | the totals and the in-fix flags are those of the whole block |
| GnssCode.AddPrns | fm160d/src/cmds.c:2175-2187 | the PRN fields between the first three and the last three, empty ones skipped |

## Left out

- Serial and USB access, ubus and blobmsg marshalling, uloop, sockets, sysfs and netlink: each is an input of a step.
- Formatting only: name tables, packet dumps, log lines, `last_error` texts, statistics counters, and the copies of addresses and DNS servers.
- Reading the configuration, and the parsers of modem answers other than the ones named above.
- `at_urc_register` and `at_urc_unregister`, `process_incoming_data` callbacks, `parse_end_flags`: not needed by the properties above.
- The bytes collected into `current_response` and the response times of a command: `Correlation` follows ids and completion only.
- Port open, close and destroy races of `port_manager.c`.
- The link pointers of the daemon's own lists: request queue, lease list and proxy lists are sequences, and `QList` proves the ring operations on linked nodes separately. The order of elements is kept; aliasing of freed nodes is not modelled.
- Bounded waiting of polls, a report for every accepted request, and markers that increase in delivery order: the code does not promise them.
- AtQueueCode.AtQueue.StateReset: does not model callbacks that submit again while the queue is being dropped.
- LeaseRuns.Exclusion: times that decrease between calls of different threads are not modelled.
- Proxy runs with more than one disconnect, or with a disconnect and control indications: `ProxyHangup` follows the first disconnect, `IndicationRepeats` one indication. A new client that gets the departed one's descriptor is taken for it and is not followed either.
- The 64 places of the proxy's poll array: clients beyond them wait unread until others leave.
- TLV lists whose last value claims more bytes than the message has: the remaining length of `GetTLV` wraps and it reads on; only lists followed by at most two stray bytes are modelled.
- Stop, query and the other QMI builders: one fixed structure each.
- GnssCode.Reading.Gsv: a GSV of fewer than four fields, whose trailing value the code reads from a field that was never set, is excluded; the trailing value itself is not kept.
- GnssCode.Reading.Gsa: fix mode, fix type and the dilution triple are not kept; the first two are the last sentence's, the triple the first complete one's.
- The checksum and the framing of an NMEA line, and the GGA and RMC sentences: a line is accepted or not by itself, and floating-point positions add nothing to the order claims.
- GnssCode.NmeaSplit: returns the fields as values; the code overwrites the commas of the line with terminators.
- CellLockCode.Settings.ParseCellLock: values beyond the range of a C int are not truncated.
