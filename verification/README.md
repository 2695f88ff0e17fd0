# A verified model of pdn-libax25

pdn-libax25 makes an RHPv2 session look like an `AF_AX25` socket. An LD_PRELOAD
interposer hands the application one end of a socketpair and keeps the other;
a reader thread, a flusher thread and an outbound-pump thread move bytes between
the socketpairs and the RHP client; libax25 supplies the callsign codec and the
port table. This project models that delivery engine and proves what it keeps,
over every run, and where a promise fails, exactly when.

The parts that are mutex-guarded maps and queues are classes whose methods are
proved against specification functions. The concurrency is modelled as
transition systems: one event is one critical section or one system call, any
enabled event of any thread may come next, and a run is any sequence of them. The
kernel's short writes, EAGAIN and errors, the application's writes, timeouts and
spurious wakeups are events or arguments of events. History fields (everything
sent, pushed, delivered, returned) let the theorems speak about whole runs.

| file | what it holds |
|---|---|
| `Bytes.dfy`, `Text.dfy` | bytes and joins; UTF-8, JSON string escaping, decimals, each with its decoder |
| `ConnRegistry.dfy`, `ConnectWait.dfy` | the connect-state registry; `wait_connected` against the reader thread |
| `AcceptWait.dfy` | the accept queues; `wait_accept` against the reader thread |
| `ConnectSession.dfy`, `Outbound.dfy` | connect gate and outbound order over every interleaving; the same operations in place |
| `RecvSpec.dfy`, `RecvPump.dfy`, `ByteDeque.dfy`, `RecvSystem.dfy` | the receive pump: its operations, the pump in place, the backlog as a ring, every interleaving with fd reuse |
| `DgramPump.dfy`, `DgramSystem.dfy` | the datagram pump in place; one handle in every interleaving |
| `Correlation.dfy`, `Framing.dfy`, `Json.dfy`, `Wire.dfy` | request ids; frames on a stream; JSON objects; send requests end to end |
| `Callsign.dfy`, `Sockaddr.dfy`, `AxPorts.dfy` | both callsign codecs; filling and reading a socket address; the port table and its walk |

## What the model takes for granted

Each assumption is a guard of the step concerned or a `requires`.

- The engine never reuses a handle within one session; each fd is connected at
  most once; connect and close on one fd do not overlap (`RecvSystem`).
- A DONTWAIT recv fails only on an empty pipe, and the gate's DONTWAIT send of
  filler only on a full one (`ConnectSession`, `Outbound`).
- On a non-blocking connect the application makes no write past the interposer
  before a drain loop of its gate has finished (`ConnectSession`).
- One application thread writes per session: no bypassed and no second interposed
  write while an interposed one is in progress; nobody uses an accepted fd before
  accept() has returned it (`ConnectSession`).
- A pipe takes a fixed number of bytes before its app end stops being writable
  (`ConnectSession`, `Outbound`).
- One reader per datagram fd; a one-byte send into an empty pipe succeeds
  (`DgramSystem`, `DgramPump`).
- Fewer than 2^64 requests (`Correlation`, `Wire`).
- Integer arithmetic wraps, as in a release build; a build with overflow checks
  would panic in `scan_int` on a number past 64 bits.

## What the code does not give

- **Gate left armed.** On a live link with both threads at rest the gate is armed
  exactly when the connect is undecided and no early close took the gate out
  (`LiveGateIsArmedIff`); the connect is decided exactly by a status, or by a close
  or the transport's end after set_pending (`DecidedIff`). So a close dispatched
  before `set_pending` can leave the gate armed for good
  (`EarlyCloseLeavesGateArmed`). After the transport is gone the exact condition is
  `set_pending` after every pending connect was failed and the gate inserted after
  `on_disconnect` listed the gates (`GateSurvivesDisconnectIff`, with the run
  `LateConnectIsNeverReleased`).
- **Failed connect that looks established**: the fd is writable and SO_ERROR
  answers 0. `LooksEstablishedIff` says exactly when.
  - On a live link, besides a connect that is up or whose failure has been read
    already, it is one whose early close took the gate out, while nothing has settled it (`RefusedConnectCanLookUp`).
  - After the transport is gone it is every non-blocking connect whose gate is
    released, pending ones included: getsockopt asks the registry only through a
    client that is not closed (crates/ax25-interpose/src/lib.rs:442-446,
    state.rs:703-722), so it answers 0 instead of the ECONNRESET stored
    (`DroppedConnectLooksEstablished`).
- **Write overtaken.** Between the end of the drain loop and the outbound
  registration the fd is writable but unknown to the pump, so an interposed write
  passes a bypassed one made before it: `WriteCanOvertake`. No byte is lost or
  doubled even then (`OutputIsConserved`). Order holds exactly if no direct send
  passes waiting bytes (`OrderHoldsIff`), so always if bypassed writes start after
  the registration (`LateBypassesKeepOrder`) and on every accepted session.
- **Close forgotten.** A close dispatched before the handle is registered with the
  receive pump leaves no mark: the EOF of a live session is noted exactly if a close
  of its handle, or the transport's end, came after its registration
  (`EofIsNotedIff`); `AnEarlyCloseIsLost` is a run.
- **accept() asleep for good.** On transport drop the reader notifies the accept
  waiters without the map lock: `DropStrandsIff`, `DropCanStrand`.
- **Datagram end unseen.** Reading the last datagram removes the readiness byte
  even when the end has been noted, so a select-driven reader never wakes for it:
  `EndIsVisibleIff`, `SelectCanMissTheEnd`. A blocked recvfrom is never stranded.
- **Torn frame.** A writer that fails inside a frame releases the lock; what was
  finished before is still read first. The stream reads back in lock order, now and
  after every continuation without a further failure, exactly if no writer has failed
  inside a frame: `LockOrderSurvivesIff`; `ATornFrameMisleads` is a run.
- **`Failed` is not terminal.** A later status(Connected) overwrites it:
  `FailureSurvivesIff`.
- **`encode_entry` panics** on six letters or digits followed by a character
  outside ASCII (`EncodePanicsIff`). Parsing an axports text aborts exactly if some
  line does that (`ParsingAbortsIff`, `LineCrashesIff`). SSIDs count modulo 2^32
  (`EncodersAgreeIff`).
- **A digipeater named V or VIA is lost** when it is the first of the path:
  `ViaPathRoundTripsIff`.
- **The port walk can cycle** when a port's name is an earlier port's callsign:
  `WalkIff`, `AWalkCanRunForEver`.
- **Where comment and code differ, the model follows the code.**
  crates/ax25-interpose/src/state.rs:67-69 says the application never writes to
  its end directly, lines 404-418 of the same file explain that stdio does; the
  model has such writes. crates/libax25/src/config.rs:72 speaks of a trailing "-0"
  but cuts at the first one, so `CALL-05` is stored as `CALL`
  (`CutIsTrailingIff`).

## Model

| member | source | states |
|---|---|---|
| ConnectSession.GateIsReleased | crates/ax25-interpose/src/state.rs:109-132 | in every run, once the registry is terminal and neither thread is between its two steps, no gate is armed |
| ConnectSession.GateIsDrainedOnce | crates/ax25-interpose/src/state.rs:114-132 | a handle's gate is inserted at most once and taken out by exactly one thread; two drain loops never run together |
| ConnectSession.FillerNeverLeaks | crates/ax25-interpose/src/state.rs:126-131 | no filler reaches RHP send, no application byte is drained away, a pipe the pump may read holds application bytes only, on all three session kinds |
| ConnectSession.ReleaseLeadsToForwarding | crates/ax25-interpose/src/state.rs:126-131 | a finished drain loop is followed by the outbound registration |
| ConnectSession.GatedFdIsNotWritable | crates/ax25-interpose/src/state.rs:79-110 | in every run, while a gate is armed its pipe is full and holds filler only, so the application cannot write and sees no writability |
| ConnectSession.StatusOpensTheFd | crates/ax25-interpose/src/state.rs:114-132 | from every state of a gated connect on a live link, a status lets the reader alone release it: Connected, SO_ERROR 0, pipe empty, registered for forwarding |
| ConnectSession.ReturnedIsForwardedIff | crates/ax25-interpose/src/lib.rs:248-262 | once the fd is back with the application: an accepted session is registered outbound; a blocking connect iff its wait succeeded; a non-blocking one iff a drain loop has finished and been followed up |
| ConnectSession.StatusEndsBlockingConnect | crates/ax25-interpose/src/lib.rs:248-262 | a blocking connect about to wait can return on a status, Connected and registered outbound |
| ConnectSession.PumpForwardsWhatWaits | crates/ax25-interpose/src/state.rs:484-489 | with `serial` free the pump alone can send all that waits in a registered pipe, in order |
| ConnectSession.EntryIsItsHistory | crates/rhpv2/src/client.rs:661-715 | in every run the registry entry is what the operations of the moves, in order, make of none |
| ConnectSession.GateSurvivesDisconnectIff | crates/ax25-interpose/src/state.rs:814-823 | after the transport is gone a gate is still armed iff tracking began after fail_all_pending and the gate went in after the snapshot |
| ConnectSession.LateConnectIsNeverReleased | crates/ax25-interpose/src/lib.rs:208-253 | a run that leaves such a gate armed with nobody to release it |
| ConnectSession.EarlyCloseLeavesGateArmed | crates/rhpv2/src/client.rs:180-190 | a run in which a close dispatched before set_pending is forgotten behind an armed gate |
| ConnectSession.LiveGateIsArmedIff | crates/ax25-interpose/src/lib.rs:233-246 | until the transport's end has failed the pending connects, at rest the gate is armed iff the connect is undecided and no early close took the gate out |
| ConnectSession.DecidedIff | crates/rhpv2/src/client.rs:693-714 | the registry is terminal iff the run holds a status, or a close or the end of the transport after set_pending |
| ConnectSession.UndecidedReleaseIff | crates/ax25-interpose/src/state.rs:806-823 | a released gate goes with a connect undecided in the registry: before the pending connects are failed iff an early close took it out and nothing settled the connect, afterwards iff tracking began late and the gate went in before the snapshot |
| ConnectSession.LooksEstablishedIff | crates/ax25-interpose/src/lib.rs:437-450 | at rest, fd writable and SO_ERROR 0: on a live link iff the registry holds Connected, or an early close took the gate out and nothing settled the connect; after the transport iff its gate is released, that is unless tracking began late and the gate went in after the snapshot |
| ConnectSession.DroppedConnectLooksEstablished | crates/ax25-interpose/src/state.rs:703-722 | a run in which a connect failed by the drop, with no status ever, is writable with SO_ERROR 0 |
| ConnectSession.RefusedConnectCanLookUp | crates/ax25-interpose/src/state.rs:806-812 | a run in which a refused connect's fd turns writable with nothing to report |
| ConnectSession.OrderHoldsIff | crates/ax25-interpose/src/state.rs:469-504 | sent, held, waiting and unsent bytes are the program-order stream iff no direct send passed waiting bytes |
| ConnectSession.OutputIsConserved | crates/ax25-interpose/src/state.rs:469-504 | in every run, overtaken or not, sent, held, waiting and unsent bytes are the application's output, each byte once |
| ConnectSession.LateBypassesKeepOrder | crates/ax25-interpose/src/state.rs:451-504 | if every bypassed write comes after the outbound registration the order holds in every run |
| ConnectSession.AcceptedSessionsKeepOrder | crates/ax25-interpose/src/lib.rs:320-332 | an accepted session's order holds without condition |
| ConnectSession.OrderedWriteFlushesEverything | crates/ax25-interpose/src/state.rs:495-504 | when an ordered write returns, everything written so far has been sent, each byte once; in program order iff no direct send overtook |
| ConnectSession.OrderedWriteGoesThrough | crates/ax25-interpose/src/state.rs:495-504 | from every state with `serial` free an interposed write on a registered session can return, with the waiting bytes sent first and its own behind them |
| ConnectSession.WriteCanOvertake | crates/ax25-interpose/src/state.rs:114-132 | a run in which an interposed write passes an earlier bypassed one |
| ConnectSession.StepKeepsInv | crates/ax25-interpose/src/state.rs:79-132 | every step of every thread keeps the session invariant |
| ConnectSession.MoveKeepsInv | crates/ax25-interpose/src/state.rs:799-823 | so do a new handle, a step at one handle and the two transport-wide steps, for all sessions at once |
| ConnectSession.RunKeepsInv | crates/rhpv2/src/client.rs:661-715 | hence the invariant holds after every run |
| Outbound.OutboundPump.Register | crates/ax25-interpose/src/state.rs:451-456 | an entry already there stays, else the handle is added |
| Outbound.OutboundPump.Unregister | crates/ax25-interpose/src/state.rs:459-461 | exactly that handle leaves |
| Outbound.OutboundPump.DrainLocked | crates/ax25-interpose/src/state.rs:469-481 | the pipe ends empty and RHP send got its bytes in order, whatever the recv sizes; no other pipe or handle changes |
| Outbound.OutboundPump.Flush | crates/ax25-interpose/src/state.rs:484-489 | the same for a handle still in the map, nothing for one that left |
| Outbound.OutboundPump.SendOrdered | crates/ax25-interpose/src/state.rs:495-504 | waiting bypassed bytes go first, then the call's own, then nothing waits |
| Outbound.ConnectGates.Arm | crates/ax25-interpose/src/state.rs:79-110 | only filler is added to the pipe until the app end is not writable, only this gate is inserted, and the fill loop ends |
| Outbound.ConnectGates.Resolve | crates/ax25-interpose/src/state.rs:114-132 | a gated handle's pipe is emptied and registered outbound; an ungated one changes nothing |
| Outbound.InterposeSink.OnStatus | crates/ax25-interpose/src/state.rs:799-804 | iff the Connected bit is set, the gate goes, its pipe is emptied and registered outbound; every other pipe and entry stays |
| Outbound.InterposeSink.OnClose | crates/ax25-interpose/src/state.rs:806-812 | releases the gate, empties its pipe, registers it outbound and marks EOF for that handle; every other pipe stays |
| Outbound.InterposeSink.OnDisconnect | crates/ax25-interpose/src/state.rs:814-823 | every gate is released, its pipe emptied and registered outbound, other pipes stay; every stream and datagram handle gets its end |
| ConnRegistry.Registry.SetPending | crates/rhpv2/src/client.rs:169-171 | never downgrades; one handle changes |
| ConnRegistry.Registry.MarkConnected | crates/rhpv2/src/client.rs:173-176 | inserts unconditionally |
| ConnRegistry.Registry.MarkFailed | crates/rhpv2/src/client.rs:180-190 | only a pending entry fails, with errCode 0 read as a refusal |
| ConnRegistry.Registry.FailAllPending | crates/rhpv2/src/client.rs:193-203 | every pending entry, in any visiting order, and no other |
| ConnRegistry.Registry.Result | crates/rhpv2/src/client.rs:205-211 | decided iff connected or failed, with the errno |
| ConnRegistry.Registry.TakeError | crates/rhpv2/src/client.rs:215-227 | reads and clears the failure |
| ConnRegistry.Registry.Forget | crates/rhpv2/src/client.rs:229-231 | the entry is gone, the others stay |
| ConnRegistry.FailuresHaveAnErrno | crates/rhpv2/src/client.rs:702-713 | no history stores a failure with errno 0 |
| ConnRegistry.ConnectedAbsorbs | crates/rhpv2/src/client.rs:180-190 | Connected is absorbing until forget |
| ConnRegistry.FailureIsReportedOnce | crates/rhpv2/src/client.rs:213-227 | SO_ERROR yields a failure once, then 0 until forget |
| ConnRegistry.FailureSurvivesIff | crates/rhpv2/src/client.rs:173-176 | a failure reaches the next read iff no status(Connected) and no read came between |
| ConnRegistry.HistoryDecidesEntry | crates/rhpv2/src/client.rs:165-203 | after any history the entry is the verdict read off the history as a whole |
| ConnRegistry.StatusWins | crates/rhpv2/src/client.rs:173-176 | a status(Connected) anywhere decides the outcome |
| ConnRegistry.EarlyFailuresAreForgotten | crates/rhpv2/src/client.rs:180-188 | failures before tracking leave no trace |
| ConnRegistry.ForgetStartsAfresh | crates/rhpv2/src/client.rs:229-231 | a history after a forget ends as it would on a new handle |
| ConnRegistry.CloseLeaves | crates/rhpv2/src/errors.rs:12-27 | the errno that a close with each code, and the end of the transport, leave on a pending connect |
| ConnectWait.NoLostWakeup | crates/rhpv2/src/client.rs:444-470 | a waiter asleep on a decided handle is woken by the reader's next step; if the transport is closed, the reader has yet to pass its last notify |
| ConnectWait.NobodySleepsAfterTheReader | crates/rhpv2/src/client.rs:652-656 | once the reader is past its last notify no waiter sleeps |
| ConnectWait.SuccessIsEarned | crates/rhpv2/src/client.rs:444-470 | Ok only after a status(Connected) for that handle, or after an SO_ERROR read that found its failure and cleared it |
| ConnectWait.LookDecides | crates/rhpv2/src/client.rs:447-464 | in every run a look at the entry ends the wait with Ok iff it is Connected and with the stored errno if it is Failed; otherwise the first look goes on and the last one times out with 110 |
| ConnectWait.ClosedDecides | crates/rhpv2/src/client.rs:452-454 | after an undecided look the wait fails with 104 iff the client is closed, else it sleeps |
| ConnectWait.EveryAnswerWasSeen | crates/rhpv2/src/client.rs:444-470 | every answer of every run is one of these, given on what the waiter saw in that step |
| ConnectWait.StatusEndsTheWait | crates/rhpv2/src/client.rs:444-470 | a sleeping wait can end in Ok by a status, its notify and the waiter alone |
| ConnectWait.CloseEndsTheWait | crates/rhpv2/src/client.rs:444-470 | and on a pending connect by a close, in its errno |
| ConnectWait.EntryIsItsHistory | crates/rhpv2/src/client.rs:165-231 | in every run the entry is what the operations on its handle, in order, make of none |
| ConnectWait.StepKeepsInv | crates/rhpv2/src/client.rs:173-227 | every step keeps the registry and waiter invariant |
| AcceptWait.AcceptRegistry.Push | crates/rhpv2/src/client.rs:242-245 | the child joins the end of its listener's queue |
| AcceptWait.AcceptRegistry.TryAccept | crates/rhpv2/src/client.rs:609-611 | takes the oldest child; None iff nobody waits |
| AcceptWait.AcceptRegistry.Forget | crates/rhpv2/src/client.rs:247-249 | drops that listener's queue only |
| AcceptWait.ChildrenAreAcceptedInOrder | crates/rhpv2/src/client.rs:584-611 | children are handed out once each, in order of arrival |
| AcceptWait.PushedAreTheArrivals | crates/rhpv2/src/client.rs:242-245 | the children that order speaks of are all that the run announced since the listener was last forgotten |
| AcceptWait.PopHandsOutTheOldest | crates/rhpv2/src/client.rs:586-591 | in every run a look at the queue returns its oldest child and takes it off, or goes on if there is none |
| AcceptWait.ClosedDecides | crates/rhpv2/src/client.rs:592-594 | then the wait ends with None iff the client is closed, else it sleeps |
| AcceptWait.EveryAnswerWasSeen | crates/rhpv2/src/client.rs:584-606 | every answer of every run is one of these |
| AcceptWait.TryAcceptTakesTheOldest | crates/rhpv2/src/client.rs:609-611 | so does a non-blocking accept, which moves no waiter |
| AcceptWait.ArrivalEndsTheWait | crates/rhpv2/src/client.rs:584-606 | a sleeping accept can return the next child by the reader and the waiter alone |
| AcceptWait.PushesAreNeverMissed | crates/rhpv2/src/client.rs:242-245 | no child waits beside a sleeping acceptor: the next reader step wakes it |
| AcceptWait.DropStrandsIff | crates/rhpv2/src/client.rs:652-657 | who is left asleep by a transport drop: exactly the waiters between their look at closed and their wait when the last notify ran |
| AcceptWait.StrandedForGood | crates/rhpv2/src/client.rs:591-605 | no later event but a spurious wakeup moves such a waiter |
| AcceptWait.DropCanStrand | crates/rhpv2/src/client.rs:657 | a run that leaves accept() asleep |
| RecvPump.RecvPump.Register | crates/ax25-interpose/src/state.rs:189-201 | the staged bytes become the backlog and the flusher is notified iff there are some |
| RecvPump.RecvPump.Unregister | crates/ax25-interpose/src/state.rs:204-208 | entry and staging are dropped |
| RecvPump.RecvPump.Push | crates/ax25-interpose/src/state.rs:211-253 | staging up to 256 KiB, fast path, backlog, fatal removal; notifies iff it left work |
| RecvPump.RecvPump.MarkEof | crates/ax25-interpose/src/state.rs:256-261 | only a registered handle is marked, and then the flusher is notified |
| RecvPump.RecvPump.ShutdownAll | crates/ax25-interpose/src/state.rs:264-270 | every handle is marked, nothing else about it changes, and the flusher is notified |
| RecvPump.RecvPump.DrainEntry | crates/ax25-interpose/src/state.rs:281-296 | for every pattern of answers, exactly what left the backlog reached that entry's socket, in order; it stops early only on a fatal answer or one that says wait |
| RecvPump.RecvPump.PassEntry | crates/ax25-interpose/src/state.rs:278-306 | one entry of a pass: drained; its EOF is sent once, exactly if it was due and the backlog is empty, so the entry is done with its EOF exactly if it was before or nothing is left in front of it |
| RecvPump.RecvPump.DrainPass | crates/ax25-interpose/src/state.rs:275-311 | every entry is passed, each on its own socket; one leaves the pump only on a fatal write and keeps a backlog only when told to wait; an entry with nothing left has sent its EOF; the work left is backlogs of fds that said wait, and if no fd is returned as blocked there is none |
| RecvPump.RecvPump.HasWork | crates/ax25-interpose/src/state.rs:313-321 | true iff some entry has a backlog or an unsent EOF |
| RecvPump.Sockets.NbWrite | crates/ax25-interpose/src/state.rs:379-401 | a write of nothing writes nothing; any other answer puts a non-empty front of the data on that fd, or nothing |
| RecvSystem.BytesAreConserved | crates/ax25-interpose/src/state.rs:189-253 | delivered ++ backlog == first 256 KiB (262144 bytes) pushed before register ++ all pushed since, in every run |
| RecvSystem.DeliveryIsAPrefix | crates/ax25-interpose/src/state.rs:275-311 | after a fatal write or a close, what was delivered is still a prefix |
| RecvSystem.LedgerIsThePushes | crates/ax25-interpose/src/state.rs:211-253 | the ledger those two speak of is every push of the run, in order |
| RecvSystem.NothingStrays | crates/ax25-interpose/src/state.rs:757-773 | with fd numbers reused, every write and shutdown hits the open inner fd of the socketpair whose state carries that handle |
| RecvSystem.EofFollowsEverything | crates/ax25-interpose/src/state.rs:300-305 | SHUT_WR comes with an empty backlog, after every byte owed, and first |
| RecvSystem.EofGoesOut | crates/ax25-interpose/src/state.rs:300-305 | in every run an awake flusher can send an EOF that is due, and that is the first shutdown of its socketpair |
| RecvSystem.EofComesAtMostOnce | crates/ax25-interpose/src/state.rs:300-305 | at most once per socketpair |
| RecvSystem.NothingFollowsEof | crates/ax25-interpose/src/state.rs:300-305 | in every run nothing is delivered after it |
| RecvSystem.PushAfterEofDropsTheHandle | crates/ax25-interpose/src/state.rs:230-252 | bytes pushed after it are refused by the kernel and the handle is dropped |
| RecvSystem.LiveFdsAreDistinct | crates/ax25-interpose/src/state.rs:757-773 | live handles have inner fds of their own, so every drain pass meets its precondition |
| RecvSystem.RegisteredIsLiveOrRemoved | crates/ax25-interpose/src/state.rs:189-253 | a registered handle stays in the pump unless its session was closed or a write to it was fatal |
| RecvSystem.EofIsNotedIff | crates/ax25-interpose/src/state.rs:256-270 | a live session's EOF is noted iff a close of its handle, or the transport's end, came after its registration |
| RecvSystem.AnEarlyCloseIsLost | crates/ax25-interpose/src/state.rs:256-261 | a run that loses a close dispatched before the registration |
| RecvSystem.PassEntryIsARun | crates/ax25-interpose/src/state.rs:278-306 | every outcome that the pass in place allows for an entry is a run of flusher steps on that handle with that outcome, and nothing else changes |
| RecvSystem.FlusherNeverOversleeps | crates/ax25-interpose/src/state.rs:337-364 | the flusher is never parked un-notified while an entry has a backlog or an unsent EOF; woken with such work it goes to it, and it can park iff there is none |
| RecvSystem.StepKeepsInv | crates/ax25-interpose/src/state.rs:189-364 | every step of every thread keeps the invariant |
| ByteDeque.Ring.FirstSlice | crates/ax25-interpose/src/state.rs:284-285 | the slice before the wrap is a front of the contents, non-empty unless they are empty |
| ByteDeque.Ring.DropFront | crates/ax25-interpose/src/state.rs:287-289 | draining n pops n off the sequence |
| ByteDeque.Ring.Extend | crates/ax25-interpose/src/state.rs:239-247 | appends, unwrapping into a larger ring when it must grow |
| ByteDeque.Ring.OfferFront | crates/ax25-interpose/src/state.rs:284-294 | one turn moves what the kernel took from the ring to the wire |
| ByteDeque.Ring.DrainInto | crates/ax25-interpose/src/state.rs:281-296 | the loop on the ring refines popping a sequence, and terminates |
| DgramPump.DgramPump.Register | crates/ax25-interpose/src/state.rs:609-615 | a new handle keeps the readiness mirror |
| DgramPump.DgramPump.Unregister | crates/ax25-interpose/src/state.rs:617-620 | so does a handle that leaves |
| DgramPump.DgramPump.Raise | crates/ax25-interpose/src/state.rs:624-637 | afterwards exactly one byte is in the pipe |
| DgramPump.DgramPump.Push | crates/ax25-interpose/src/state.rs:639-651 | tail drop at 4096, else queued and signalled; mirror kept for all handles |
| DgramPump.DgramPump.RecvOne | crates/ax25-interpose/src/state.rs:653-675 | NoHandle iff the handle is not there, the oldest datagram iff one waits, Eof iff none waits and the end is noted, Empty iff neither; the readiness byte leaves with the last datagram |
| DgramPump.DgramPump.ShutdownAll | crates/ax25-interpose/src/state.rs:677-684 | every handle ends and is signalled |
| DgramSystem.PipeMirrorsQueue | crates/ax25-interpose/src/state.rs:624-683 | in every run pipe bytes == signaled, queue implies signaled, signaled implies queue or eof |
| DgramSystem.ReaderIsNeverStranded | crates/ax25-interpose/src/lib.rs:776-810 | a reader that saw Empty can always return from poll and try again once a datagram or the end exists |
| DgramSystem.DatagramsKeepOrder | crates/ax25-interpose/src/state.rs:639-674 | returned ++ queue == the pushes that found room, in order |
| DgramSystem.TailDropIff | crates/ax25-interpose/src/state.rs:639-645 | a push is dropped iff 4096 wait unread |
| DgramSystem.EndComesLast | crates/ax25-interpose/src/state.rs:653-675 | the end is reported only after every datagram |
| DgramSystem.TryingTells | crates/ax25-interpose/src/state.rs:653-675 | in every run an attempt returns the oldest datagram, else reports the end if the transport has ended, else says Empty |
| DgramSystem.TransportEndIsKept | crates/ax25-interpose/src/state.rs:677-684 | the end is noted iff it came in the run |
| DgramSystem.EndIsVisibleIff | crates/ax25-interpose/src/state.rs:656-668 | with only the end left, the fd is readable iff no datagram was read since the end was noted |
| DgramSystem.SelectCanMissTheEnd | crates/ax25-interpose/src/state.rs:656-668 | a run that leaves the end behind an unreadable fd |
| DgramSystem.RunKeepsInv | crates/ax25-interpose/src/state.rs:599-684 | the invariant holds after every run |
| Correlation.Multiplexer.NextId | crates/rhpv2/src/client.rs:331-334 | ids count up from 1; 0 comes only when the 64-bit counter wraps |
| Correlation.Multiplexer.TakeWaiter | crates/rhpv2/src/client.rs:637-644 | the waiter with the frame's id leaves the map, or the frame goes to push dispatch |
| Correlation.IdsAreDistinct | crates/rhpv2/src/client.rs:331-339 | ids of all calls are non-zero and distinct |
| Correlation.RepliesAreOnesOwn | crates/rhpv2/src/client.rs:337-359 | a call gets at most one frame, with its own id, and returns no other, whatever timeouts and late replies do |
| Correlation.EveryFrameGoesOnePlace | crates/rhpv2/src/client.rs:628-650 | the routing record has one entry for each parsed frame, in order; the next row says which frames go to a waiter |
| Correlation.FrameReachesWaiterIff | crates/rhpv2/src/client.rs:637-646 | it reaches a waiter iff a call with its id is pending then |
| Correlation.PendingIff | crates/rhpv2/src/client.rs:337-359 | a call that waits is in the pending map exactly until its frame comes or the map is cleared |
| Correlation.ReceivedIsReturned | crates/rhpv2/src/client.rs:350-359 | a call that ends returns the frame routed to it iff it received before it gave up, and otherwise none |
| Correlation.RequestRoundTrips | crates/rhpv2/src/client.rs:337-359 | from every state a new call can draw its id, wait, be answered and return exactly that frame, and leaves the map |
| Correlation.ClearPendingFaultsEveryone | crates/rhpv2/src/client.rs:652-655 | at the end of the transport every waiting call can go on: its frame is there or it is hung up on |
| Correlation.StepKeepsInv | crates/rhpv2/src/client.rs:337-359 | every step of a caller or the reader keeps the id, channel and routing invariant |
| Framing.WriteFrame | crates/rhpv2/src/framing.rs:12-23 | oversize is refused unwritten; else the stream grows by the frame, or by a front of it on an error |
| Framing.ReadFrame | crates/rhpv2/src/framing.rs:27-38 | yields the next frame, a clean end on a missing prefix, an error on a cut body |
| Framing.FrameShape | crates/rhpv2/src/framing.rs:12-38 | a frame is the length in network byte order and that many bytes, and nothing else; the reader takes it iff the stream starts with it |
| Framing.CutStreamYieldsCompleteFrames | crates/rhpv2/src/framing.rs:27-38 | any cut of any stream reads back as exactly the complete frames before the cut |
| Framing.CompleteIsMaximal | crates/rhpv2/src/framing.rs:27-38 | that count is right: those frames fit, one more would not |
| Framing.WholeStreamRoundTrips | crates/rhpv2/src/framing.rs:12-38 | an uncut stream gives back every body and a clean end |
| Framing.ReadersSeeLockOrder | crates/rhpv2/src/client.rs:341-344 | for every interleaving of writers under the lock a reader recovers the finished bodies in lock order; after a writer failed inside a frame, those finished before it first |
| Framing.LockOrderSurvivesIff | crates/rhpv2/src/client.rs:341-348 | the stream reads back in lock order now and after every continuation without a further failure iff no writer failed inside a frame |
| Framing.ATornFrameMisleads | crates/rhpv2/src/client.rs:341-348 | a run in which a frame after a torn one is misread |
| Text.Utf8RoundTrips | crates/rhpv2/src/codec.rs:14-16 | UTF-8 (section 3 of RFC 3629) of any string decodes to it |
| Text.Utf8Shape | crates/rhpv2/src/client.rs:498-499 | every character is encoded as the table of section 3 of RFC 3629 says: length by range, six bits in each byte behind the first |
| Text.EscapeRoundTrips | crates/rhpv2/src/client.rs:498-499 | JSON escaping (section 7 of RFC 8259) of any string is undone by unescaping |
| Text.EscapeShape | crates/rhpv2/src/client.rs:498-499 | a character is escaped iff it is a control, a quote or a backslash, each in the form of section 7 of RFC 8259 |
| Text.DecimalRoundTrips | crates/rhpv2/src/client.rs:498-499 | a number's decimal text is read back as it |
| Wire.WireStringRoundTrips | crates/rhpv2/src/codec.rs:14-26 | bytes to string and back is the identity; string to bytes and back iff it is Latin-1 |
| Json.ObjectIsRead | crates/rhpv2/src/client.rs:498-499 | a reader of JSON objects gives back every object with string and number members, whatever their names and contents |
| Wire.SendTextIs | crates/rhpv2/src/messages.rs:49-56 | the text of a send request, `type` first, written out |
| Wire.SendBodyRoundTrips | crates/rhpv2/src/client.rs:495-499 | a reader of JSON objects that looks up `type`, `id`, `handle` and `data` by name gets the id, the handle and every byte out of a send request |
| Wire.SendBodyFits | crates/rhpv2/src/client.rs:485-502 | a chunk's body is at most 6 bytes per byte plus 102, below 65535 |
| Wire.ChunksRejoin | crates/rhpv2/src/client.rs:485-493 | the chunks concatenate to the data |
| Wire.ChunksAreFull | crates/rhpv2/src/client.rs:485-493 | every chunk but the last has exactly 8100 bytes, and only empty data gives an empty chunk |
| Wire.SendRoundTrips | crates/rhpv2/src/client.rs:485-502 | for every byte string the frames of one send read back, through framing, UTF-8, JSON and Latin-1, as those bytes |
| Wire.CutSendIsAPrefix | crates/rhpv2/src/client.rs:485-493 | from any cut of them the first whole chunks are recovered, a prefix of the data |
| Wire.Sender.SendChunk | crates/rhpv2/src/client.rs:495-502 | one fresh id; success means the whole frame is on the stream |
| Wire.Sender.Send | crates/rhpv2/src/client.rs:485-493 | success puts exactly the frames of all chunks on the stream; a failure leaves a front of them |
| Callsign.ScanInt | crates/libax25/src/addr.rs:97-118 | the wrapping 64-bit loop yields the low 32 bits of the number spelled, signed |
| Callsign.EncodeEntry | crates/libax25/src/addr.rs:53-94 | the buffer loops compute `Encoded`, for which the next rows say what is accepted, refused and a panic |
| Callsign.AcceptedIff | crates/libax25/src/addr.rs:53-118 | for every text: accepted iff it is at most six letters or digits, alone or followed by one character (a dash, unless six came before) and by blanks, an optional sign and digits whose value is 0 to 15 in 32 bits; the address then holds the capitals and that SSID, byte by byte, and decodes to them |
| Callsign.BadSymbolIsRefused | crates/libax25/src/addr.rs:61-69 | any other symbol among the first six is refused |
| Callsign.ValueOfDecimal | crates/libax25/src/addr.rs:107-112 | the value meant is that of the decimal text |
| Callsign.DecodeEntry | crates/libax25/src/addr.rs:121-136 | the push loop computes `Decoded` |
| Callsign.SsidTextIs | crates/libax25/src/addr.rs:129-134 | an SSID is written as a dash and its decimal number, 0 not at all |
| Callsign.CmpEntry | crates/libax25/src/addr.rs:139-149 | the loop compares letters first, then SSIDs, ignoring spare bits |
| Callsign.ValidateEntry | crates/libax25/src/addr.rs:152-162 | true iff all six shifted characters are upper-case, digits or spaces |
| Callsign.EncodeInvertsDecodeIff | crates/libax25/src/addr.rs:53-136 | encode(decode(a)) == a iff a is canonical (section 3.12 of AX.25 v2.2) |
| Callsign.DecodeInvertsEncodeIff | crates/libax25/src/addr.rs:53-136 | decode(encode(t)) == t iff t is upper-case base and decimal SSID without leading zero, 0 left out |
| Callsign.EncodedIsCanonical | crates/libax25/src/addr.rs:53-94 | whatever is accepted yields a canonical address |
| Callsign.DecodeNormalises | crates/libax25/src/addr.rs:53-136 | one decode normalises any accepted spelling for good |
| Callsign.CmpDecides | crates/libax25/src/addr.rs:139-149 | on canonical addresses 0 iff the texts are equal iff the bytes are; 2 iff only the SSIDs differ |
| Callsign.LettersOfSame | crates/libax25/src/addr.rs:139-149 | on any addresses 0 implies equal texts |
| Callsign.CmpIsZeroIff | crates/libax25/src/addr.rs:139-149 | on any two addresses 0 iff the texts are equal and the spaces stand in the same places |
| Callsign.EqualTextsCanDiffer | crates/libax25/src/addr.rs:139-149 | equal texts with spaces in other places compare as different |
| Callsign.EncodePanicsIff | crates/libax25/src/addr.rs:82-89 | encode_entry panics iff six letters or digits are followed by a non-ASCII character |
| Callsign.InterposerEncode | crates/ax25-interpose/src/addr.rs:65-88 | the interposer's loop computes its own encoding |
| Callsign.InterposerReads | crates/ax25-interpose/src/addr.rs:65-88 | on letters and digits, a dash and an SSID: the first six in capitals, and the SSID modulo 16 if it is a plain number below 256, else 0 |
| Callsign.EncodersAgreeIff | crates/ax25-interpose/src/addr.rs:65-88 | on BASE-digits: accepted iff the number is at most 15 modulo 2^32, and the copies agree iff it is at most 15 or a multiple of 2^32 |
| Callsign.InterposerRoundTrips | crates/ax25-interpose/src/addr.rs:49-88 | the interposer's encode and decode invert each other on every canonical text and agree with libax25 |
| Sockaddr.FullSockaddr.FillSax | crates/libax25/src/addr.rs:319-357 | the placement loop, in place: what is written, the count and family only on success, partial writes on refusal |
| Sockaddr.FillWrites | crates/libax25/src/addr.rs:319-357 | every byte and field after a fill, complete or refused: the call, each of the eight slots, the count, the family, and what is returned |
| Sockaddr.SeparatorsAre | crates/libax25/src/addr.rs:331-334 | the separators are V and VIA, each letter in either case, and nothing else |
| Sockaddr.SpelledSeparatorIsSkipped | crates/libax25/src/addr.rs:331-334 | a fill with such a separator behind the callsign is the fill without it |
| Sockaddr.FillThenRead | crates/ax25-interpose/src/addr.rs:107-132 | after a fill the interposer reads exactly the placed digipeaters, normalised and in order, as many as the length shows, nothing stale |
| Sockaddr.SlotsReadIs | crates/ax25-interpose/src/addr.rs:107-124 | the slots shown are the most that the count, the length and the eight places allow |
| Sockaddr.CanonicalPathReadsBack | crates/ax25-interpose/src/addr.rs:107-132 | canonical digipeaters all encode and read back as written |
| Sockaddr.ViaPathRoundTripsIff | crates/libax25/src/addr.rs:329-353 | the first eight via calls come back in order iff the first is not spelled V or VIA |
| Sockaddr.SeparatorIsIgnored | crates/libax25/src/addr.rs:331-334 | a V or VIA after the callsign changes nothing |
| AxPorts.ParseAxports | crates/libax25/src/config.rs:38-99 | the line loop computes the fold `Parsed` of the lines, for which the next rows say what it holds |
| AxPorts.ParsingAbortsIff | crates/libax25/src/config.rs:41-81 | parsing aborts iff some line crashes |
| AxPorts.LineCrashesIff | crates/libax25/src/config.rs:72-81 | a line crashes iff it is complete with valid numbers and its callsign token has six letters or digits, then a character outside ASCII |
| AxPorts.WrittenLineIsRead | crates/libax25/src/config.rs:41-97 | a line of any five fields and a description, with any gaps and white space around, is read as its port iff it is no comment, its numbers are valid 32-bit ones and its stored callsign encodes; otherwise it crashes or is passed over, and exactly when is stated |
| AxPorts.OnlyWrittenLinesAreRead | crates/libax25/src/config.rs:41-97 | conversely a line that yields a port or crashes is five fields and a description written out, and no comment |
| AxPorts.CommentsAreIgnored | crates/libax25/src/config.rs:42-46 | blank lines and comments are passed over |
| AxPorts.LinesAre | crates/libax25/src/config.rs:41 | lines end at each line feed, and what is behind the last is a line unless empty |
| AxPorts.NumbersAreRead | crates/libax25/src/config.rs:64-70 | the decimal text of a number, bare or with a sign, is read as that number iff 32 bits hold it |
| AxPorts.NonNumbersAreRefused | crates/libax25/src/config.rs:64-70 | nothing but digits behind at most one sign is a number |
| AxPorts.ReadLine | crates/libax25/src/config.rs:41-81 | a line that yields a port has a token for a name, a description, valid numbers and an encodable stored call |
| AxPorts.ParsedIsDistinct | crates/libax25/src/config.rs:78-86 | every table is well-formed, without two equal names (case ignored) or calls |
| AxPorts.NothingIsLost | crates/libax25/src/config.rs:83-96 | every usable line's name (case ignored) or call is in the table |
| AxPorts.EarlierLinesWin | crates/libax25/src/config.rs:83-96 | the table follows the file: what the first lines give stays at its front, and every port behind is that of a later line |
| AxPorts.CutIsTrailingIff | crates/libax25/src/config.rs:72-76 | only a trailing "-0" is cut iff no "-0" stands earlier |
| AxPorts.StoredCallIs | crates/libax25/src/config.rs:72-76 | a stored call is the token in upper case up to its first "-0" |
| AxPorts.EqIgnoreCaseIff | crates/libax25/src/config.rs:84 | two names are the same iff they differ in the case of ASCII letters only |
| AxPorts.SameStoredCall | crates/libax25/src/config.rs:186-195 | a stored call is the same call as a name iff equal but for case, or for "-0" in the name |
| AxPorts.PortTable.Load | crates/libax25/src/config.rs:152-181 | a loaded table is never replaced; an empty one becomes the parsed file |
| AxPorts.PortTable.GetNext | crates/libax25/src/config.rs:198-228 | the search loop computes `Next` |
| AxPorts.NextIs | crates/libax25/src/config.rs:213-228 | the successor of a name is the port after the first that answers to it, and none if there is none |
| AxPorts.WalkIff | crates/libax25/src/config.rs:213-228 | the walk from NULL visits every port once in order and ends iff no name has a NUL and none is an earlier port's call |
| AxPorts.ShadowedWalkNeverEnds | crates/libax25/src/config.rs:213-228 | otherwise, without NULs, it never ends |
| AxPorts.AWalkCanRunForEver | crates/libax25/src/config.rs:213-228 | the walk over the table parsed from a text of two lines cycles |
| AxPorts.PortWalk | crates/libax25/src/config.rs:38-99 | both for the table of any axports text that parses (`ParsingAbortsIff`) |

## Left out

- Reconnection in `ensure_client`: one client session is modelled. After the transport is gone a call gets a fresh client or none: getsockopt then answers 0 and leaves the old registry alone, which is modelled; bytes handed to a fresh client count as handed to RHP send; a write or pump pass without a client does nothing and is no step. That a fresh session may use an old handle's number is not modelled.
- TCP connect, auth, environment variables, file reading, thread creation, signals: plumbing.
- Wall-clock durations: a timeout is a step that may come at any time.
- serde_json's parser and the reply accessors of messages.rs: `Json` reads objects of strings and unsigned integers without white space, which is what the client writes; replies are opaque frames with an optional id.
- UTF-16 surrogate escapes in JSON: serde_json does not write them.
- The outbound pump and `resolve_connect_gate` against a concurrent close: they use the inner fd outside the map lock, so no stale-fd property is stated for them; `NothingStrays` is about the receive pump.
- close() of a session in `ConnectSession`: its runs end before the handle is forgotten and unregistered, so "every run" there means every run up to close(). `RecvSystem` has close and fd reuse.
- `DrainPass` keeps the backlog as a sequence; `Ring.DrainInto` proves the same contract for that loop on the ring.
- Failed RHP sends inside `drain_locked`: its result is ignored there, so "sent" means handed to RHP send.
- A timed `wait_accept`: only the wait without a timeout is modelled.
- The order in which a `HashMap` is visited, and poison of a mutex: any order; no panics under a lock.
- Socket addresses as raw memory (`c_char` signs, padding, pointers) and `write_call`, `write_sockname`: an address is a record.
- `bind`, `listen`, `getsockname`, `getpeername`, `ensure_dgram_handle` and datagram sending: one RHP request each, nothing beyond `Correlation` and `Wire` to prove.
- Socket options, PID prepend and strip, stubs, rose helpers, case helpers, `get_call`, `parse_calls`: they would only add easy members.
- DgramPump.DgramPump.Raise: its error branch (a send that fails leaves `signaled` clear) is in the body, but the contract covers the assumed kernel, where a send into an empty pipe succeeds.
- Chunk sizes of an interposed write in the session machine: the bytes reach RHP in any pieces; the chunk size is Wire's concern.
